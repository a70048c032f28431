# Parachuter, verified

Parachuter moves files over a one-way lossy datagram link: a chunker cuts a file into packets, a
reassembler rebuilds it from whatever arrives, a cleaner asks for the gaps, a sender queue serves
those requests, and a reconciler catches files lost whole. This project models that protocol in
Dafny and proves what the system is for, and exactly where it stops short of it:

* **Safety.** Over every packet order, loss, duplicate and damage, and every power cut between or
  inside the durable writes of an ingest, each landed file is byte-identical to its source
  (`Delivery`), also when a saved sidecar is lost and an older one comes back (`Lagging`); across
  changes of chunk size too, under an exact condition (`MixedSizes`). A power cut inside `finalize`
  is where this fails: `HalfLanded` says exactly when the landed file survives it. The
  receive loop over real sidecar files refines the in-memory ground station (`Reassembly`,
  `Sidecar`, `Receiver`).
* **Recovery.** While a chunk or the name is missing the gaps close: one round that gets through
  completes the file at its last packet, and no packet takes progress away (`Recovery`), wherever
  the name comes (`NameAnywhere`). One pass of the cleaner over every file in flight, with the
  sender's loop and the ground, lands exactly the files of which something is missing (`FullCircle`).
  A file complete when the power failed, or begun at another chunk count, is not recovered this way:
  `Stranded` says exactly what is, and `Late` which packets begin a landed file again. The
  demonstration loop is stuck for ever if and only if a datagram exceeds the rate limiter's bucket;
  otherwise it ends, and every pass that did not land the file lost a packet (`Demo`).
* **The sender.** Conservation, order and name-before-data of a queue with residues, interrupts,
  flushes and failures (`SenderBook`), kept by the runtime class (`Sender`, `Queue`, `Ledger`); and
  when its main loop, which ends at the first error, goes on (`Running`).
* **The closed loop.** Cleaner, sender and ground interleaved: no chunk is ever queued twice and
  everything asked for was missing (`Cleaner`, `ClosedLoop`, `Dedup`). A pass of the cleaner is a run
  of that machine (`PassRun`).
* **Codecs.** The datagram with a concrete CRC-32 (clause 3.2.9 of IEEE 802.3; sample code in
  section 8 of RFC 1952) and the damage it misses, decided by elimination, the sidecar, and the ledger
  snapshot (quoting as in section 2 of RFC 4180): `Crc32`, `CheckValue`, `Packets`, `Straddle`,
  `Kernel`, `Bitmaps`, `Csv`, `Snapshot`.
* **Clocked state.** The dedup table, the reconcile memory and the token bucket (`Dedup`,
  `Reconcile`, `RateLimiter`); and a vanished file, from the sender that meets it to the reconciler
  that leaves it alone (`Vanished`).

Where the source works on mutable state the model is a class or a method with loops, proved against
a function of the old state; the theorems are about those functions and about runs of them. Wire
integers keep their widths: casts and wrap-around are written out. Run
`dafny verify dfyconfig.toml` to check everything.

## How the source and its documentation differ

* `docs/DESIGN.md:230` says a duplicate chunk's write is skipped; `reassembler.rs:207-224` rewrites
  it before reporting it. The model rewrites.
* `docs/DESIGN.md:351-352` says very low rates work without surprises; `rate_limiter.rs:49-68` never returns when
  the datagram exceeds one second of traffic. `RateLimiter.AcquireReturns` is the exact condition and
  `RateLimiter.SlowLinkBlocks` the 30 kbit/s case.
* `reconcile.rs:87` cuts lines before it looks at quotes, so a snapshot holding a name with a newline
  is refused as a whole: `Snapshot.DumpRoundTrip` says exactly that.
* `cleaner/mod.rs:219` casts a start to `i32`: from 2^31 on a gap request asks for the whole file
  (`Cleaner.RequestedAsMeant`).
* The reassembler tells cuts apart by chunk count only: `MixedSizes.LandsWellIffToldApart`.
* A CRC-32 misses some damage on both sides of the CRC field's end: `Straddle.TwoByteDamagePasses`
  exhibits it in every packet with two bytes of payload; `Straddle.MissedIffEscapes` and
  `Kernel.MissedIffDependent` say at which payload lengths and window positions it exists.
* Power lost after the last bit is saved and before `finalize` leaves a file that is complete and not
  landed. Neither the cleaner (nothing is missing) nor the reconciler (`reconcile.rs:212`: it is in
  flight) ever asks for it; only its name packet, sent again, lands it: `Stranded.AnyFileMayStrand`,
  `Stranded.StrandedLandsIffNamed`, `Reconcile.HeldNeverAsked`.
* An assembly begun at one chunk count takes no packet of another, so after a change of chunk size the
  cleaner cannot finish it: `Stranded.CanFinishIffCountsMatch`.
* `reassembler.rs:300-301` says `finalize` leaves no orphans. A power cut between its rename and the
  removal of the sidecar leaves a sidecar that says every chunk is there; a late chunk and a late name
  then land that chunk alone over the good file: `HalfLanded.AnyFileMaySpoil`, with the exact condition
  in `HalfLanded.HalfLandedStaysIff`.
* `state.rs:297-311` passes every error of `send_next` on and `sender/mod.rs:80` ends the sender with it,
  so a queued name whose file has vanished loses the whole queue, where a chunk of such a file is only
  dropped: `Running.VanishedNameKills`; `Running.GoesOnIff` is the exact condition.
* `rate_limiter.rs:49-61` blocks while the sender's runtime is locked, so one oversized datagram stops
  the sender: the `returned` result of `Sender.SenderRuntime.SendNext`.

## Model

| member | source | states |
|---|---|---|
| Crc32.BuildTable | index.html:709 | the nested loops fill each table slot with the bitwise remainder of its index |
| Crc32.TableStep | index.html:709-710 | one table step of the register is eight bit steps after feeding the byte: the table form equals the bitwise form |
| Crc32.ComputeChecksum | index.html:710 | the table-driven loop returns the bitwise CRC-32 of any message |
| CheckValue.CrcCheckValue | index.html:709-710 | the checksum of the nine digits 1 to 9 is the published CBF43926, hexadecimal, which fixes polynomial, bit order, preset and inversion |
| Crc32.ChecksumDifference | index.html:709-710 | the registers of two equally long messages differ by the CRC of their difference run from zero: the checksum is affine |
| Crc32.BurstDetected | index.html:709-710 | messages differing only inside four consecutive bytes have different checksums |
| Packets.EncodePacket | crates/parachuter/src/proto/packets.rs:103-118 | filling the buffer in place, CRC last, yields the header, the CRC of the datagram with that field zeroed, and the payload |
| Packets.DecodePacket | crates/parachuter/src/proto/packets.rs:122-161 | the checks in source order, over a copy with the CRC field zeroed, answer as the decoding function |
| Packets.DecodeEncode | crates/parachuter/src/proto/packets.rs:103-161 | decoding an encoded packet gives it back exactly when the payload length fits `u32` |
| Packets.EncodeDecode | crates/parachuter/src/proto/packets.rs:122-161 | any accepted buffer is the encoding of what it decodes to |
| Packets.WireLayout | crates/parachuter/src/proto/packets.rs:103-118 | every byte of the header: magic, version, the codes of the five types, each field little-endian at its place, the CRC of the datagram with that field zeroed |
| Packets.DamageRefused | crates/parachuter/src/proto/packets.rs:122-151 | damage inside any four-byte window, not on both sides of the CRC/payload boundary, is refused |
| Straddle.MissedIffEscapes | crates/parachuter/src/proto/packets.rs:122-151 | damage in the last k CRC bytes and the payload bytes after them can be accepted if and only if payloads of that length have a difference in those bytes that leaves the first 4-k CRC bytes alone; nothing else in the packet matters |
| Kernel.EscapesIffDependent | crates/parachuter/src/proto/packets.rs:122-151 | payloads of a length have such a difference if and only if elimination finds the effects of the window's payload bits on the CRC bits outside it linearly dependent |
| Kernel.MissedIffDependent | crates/parachuter/src/proto/packets.rs:122-151 | so damage of a window can be accepted exactly when that computable test says so |
| Straddle.EmptyNeverEscapes | crates/parachuter/src/proto/packets.rs:122-151 | no such damage passes in a packet without payload |
| Straddle.OneByteNeverEscapes | crates/parachuter/src/proto/packets.rs:122-151 | nor in a packet with one byte of payload, at any window position |
| Straddle.TwoByteDamagePasses | crates/parachuter/src/proto/packets.rs:122-151 | in every packet with two payload bytes, changing both by 61 D8 and the last two CRC bytes to match is accepted |
| Straddle.AcceptedField | crates/parachuter/src/proto/packets.rs:141-151 | with the header kept, exactly one CRC field is accepted for each payload |
| Chunker.CountOfMultiples | crates/parachuter/src/chunker.rs:148-154 | an empty file has one chunk, and k full chunks make k |
| Chunker.ChunkPlace | crates/parachuter/src/chunker.rs:79-106 | every chunk lies inside the file at its offset, all but the last full, the last reaching the end |
| Chunker.ChunksJoinToContent | crates/parachuter/src/chunker.rs:79-106 | the payloads of all data packets in order are the file |
| Bitmaps.SetBitSetsOne | crates/parachuter/src/reassembler.rs:470-482 | setting a chunk's bit changes that chunk's reading and no other |
| Bitmaps.BitPlace | crates/parachuter/src/reassembler.rs:470-482 | chunk bits are counted from the least significant bit of their byte |
| Bitmaps.CompleteMeansAllSet | crates/parachuter/src/reassembler.rs:484-500 | whole bytes then mask: complete exactly when every chunk's bit is set |
| Bitmaps.MissingRanges | crates/parachuter/src/reassembler.rs:503-519 | the two nested loops return the maximal gaps |
| Bitmaps.MissingWellSpaced | crates/parachuter/src/reassembler.rs:503-519 | gaps are nonempty, sorted, maximal and kept apart by received chunks |
| Bitmaps.MissingCovers | crates/parachuter/src/reassembler.rs:503-519 | a chunk is in some gap exactly when it is below the count and not received |
| Bitmaps.BitmapAgreement | crates/parachuter/src/reassembler.rs:484-519 | complete, all bits set, no gap, and none missing are the same |
| Bitmaps.StatsExact | crates/parachuter/src/reassembler.rs:331-340 | the reported number of received chunks is the number of set bits |
| Sidecar.OpenSave | crates/parachuter/src/reassembler.rs:386-467 | a saved manifest opens as itself exactly when its name length fits and its bitmap has the right length |
| Sidecar.SidecarLayout | crates/parachuter/src/reassembler.rs:435-467 | every field of the sidecar at its place, the CRC over the header alone |
| Sidecar.OpenedIsSaved | crates/parachuter/src/reassembler.rs:386-433 | whatever opens has the magic, the version, the checksum and the bytes of a saved sidecar, reserved and trailing bytes aside |
| Sidecar.HeaderDamageRefused | crates/parachuter/src/reassembler.rs:386-433 | damage within four bytes of the header is refused; name and bitmap are not covered |
| GroundPaths.ComputeGroundPath | crates/parachuter/src/reconcile.rs:41-49 | the loop keeps the normal components of the payload path in order |
| GroundPaths.SplitJoins | crates/parachuter/src/reconcile.rs:41-49 | taking a path apart loses the slashes and nothing else |
| GroundPaths.Mirrored | crates/parachuter/src/reconcile.rs:41-49 | every list of parts that are not empty, `.` or `..`, joined by slashes, with or without a leading one, lands at exactly those parts |
| GroundPaths.DotsDropped | crates/parachuter/src/reconcile.rs:41-49 | an empty part, `.` or `..` anywhere in a path makes no difference |
| GroundPaths.CannotEscape | crates/parachuter/src/reconcile.rs:35-49 | walking the landing place from the final directory never leaves it |
| Reassembly.Reassembler.IngestChunkPacket | crates/parachuter/src/reassembler.rs:139-233 | in-place ingest of a chunk over sidecar and data file gives the answer, both files and the trail of durable states of the chunk step, and touches no other id |
| Reassembly.Reassembler.StoreChunkOf | crates/parachuter/src/reassembler.rs:192-233 | grow, write, truncate on the last chunk, then mark: with each intermediate durable state |
| Reassembly.Reassembler.IngestManifestPacket | crates/parachuter/src/reassembler.rs:235-263 | in-place ingest of a name packet, with its durable states |
| Reassembly.Reassembler.IngestPacket | crates/parachuter/src/reassembler.rs:131-137 | dispatch by packet type over the files |
| Reassembly.Reassembler.SaveManifest | crates/parachuter/src/reassembler.rs:435-467 | the sidecar of that id alone becomes the saved manifest |
| Reassembly.Reassembler.Finalize | crates/parachuter/src/reassembler.rs:302-328 | refuses incomplete or nameless assemblies; otherwise moves the data to the mirrored path and drops both files |
| Delivery.PacketOfCut | crates/parachuter/src/chunker.rs:79-134 | what every packet of a cut carries: count, place, bytes, last-chunk flag |
| Delivery.FlagsOfCut | crates/parachuter/src/chunker.rs:79-134 | the flag bits on the wire: last chunk and retransmission, and none on names |
| Delivery.PlacedAnywhere | crates/parachuter/src/reassembler.rs:192-216 | whatever the data file held, a chunk is written in its place alone, gaps read as zero, and the last chunk settles the length |
| Delivery.HintKept | crates/parachuter/src/reassembler.rs:209-224 | through every packet and durable step the size hint is the file's length once the last chunk is marked, and zero before |
| Delivery.HeartbeatIgnored | crates/parachuter/src/reassembler.rs:131-137 | a heartbeat changes nothing |
| Delivery.WrongCountIgnored | crates/parachuter/src/reassembler.rs:170-174 | a packet of another chunk count leaves the assembly untouched |
| Delivery.IngestConsistent | crates/parachuter/src/reassembler.rs:131-263 | every packet of the file keeps the assembly consistent with the source, at every durable step on the way |
| Delivery.CrashConsistent | crates/parachuter/src/reassembler.rs:145-226 | whatever power loss leaves between or inside the durable steps of an ingest is still consistent |
| Lagging.IngestImproves | crates/parachuter/src/reassembler.rs:192-226 | from each durable step of an ingest to every later one, no byte of the data file that was right goes wrong |
| Lagging.MayRemainMayLag | crates/parachuter/src/reassembler.rs:435-467 | every state `Delivery` reckons with after a power cut is one of these |
| Lagging.LagConsistent | crates/parachuter/src/reassembler.rs:435-467 | whatever a power cut leaves of an ingest, with any sidecar the file has had, is consistent |
| Lagging.LaggingRunsAreSafe | crates/parachuter/src/reassembler.rs:435-467 | over every run in which each cut may bring back, for every file under way, any older sidecar or none, every landed file is whole |
| Lagging.LaggingFromNothing | crates/parachuter/src/reassembler.rs:435-467 | from an empty ground, what such a run leaves at a file's own landing place is that file |
| HalfLanded.CutHalfLands | crates/parachuter/src/reassembler.rs:318-326 | a cut between rename and removal leaves a sidecar with every bit and no data file, the file itself landed whole |
| HalfLanded.LaidIsContent | crates/parachuter/src/reassembler.rs:192-215 | the chunks that came, laid over nothing, are the file if and only if the last is among them and all others are zeros |
| HalfLanded.HalfLandedStaysIff | crates/parachuter/src/reassembler.rs:235-263 | after such a cut, over every run of chunks and then a name, the landed file stays whole if and only if no chunk came or those that came suffice |
| HalfLanded.AnyFileMaySpoil | crates/parachuter/src/reassembler.rs:302-328 | so any file of more than one chunk can be spoiled after it has landed: the run is constructed |
| Late.LatePacketsBegin | crates/parachuter/src/reassembler.rs:145-166 | after landing, over every run of the file's packets, nothing of it is held again if and only if each is the last chunk of a file of several; else the first other one begins it, and the cleaner asks for it |
| Delivery.BitsAreDurable | crates/parachuter/src/reassembler.rs:192-226 | in every consistent state each set bit names a chunk that is on disk, the data is never longer than the file, and has its length once the last bit is set |
| Delivery.CompleteIsContent | crates/parachuter/src/reassembler.rs:302-328 | a consistent, complete assembly holds the source byte for byte |
| Delivery.StepSafe | crates/parachuter/src/receiver.rs:49-78 | one datagram or power cut keeps every assembly consistent and every landed file identical |
| Delivery.LandedFilesAreIdentical | crates/parachuter/src/receiver.rs:49-78 | over every run of arrivals, losses, duplicates, reorderings, damage and power cuts, every landed file is a source file, whole |
| Delivery.LandedFromNothing | crates/parachuter/src/receiver.rs:49-78 | from an empty ground, what is found at a file's own landing place is that file |
| Delivery.LinkDelivers | crates/parachuter/src/proto/packets.rs:122-151 | intact and four-byte-damaged datagrams are all covered by the link the safety claim assumes |
| Receiver.ReceiveOne | crates/parachuter/src/receiver.rs:54-77 | the loop body on the files: decode, ingest, finalise on `Complete` |
| Receiver.ReceiveLoop | crates/parachuter/src/receiver.rs:49-78 | the loop over a session's datagrams |
| Receiver.UnreadableKept | crates/parachuter/src/reassembler.rs:139-263 | a packet of a file whose sidecar cannot be read changes no file |
| Receiver.FinalizeAnswers | crates/parachuter/src/reassembler.rs:302-328 | landing succeeds exactly with every chunk, a name, the data and a place to put it; else nothing is touched, and incomplete or nameless ones are refused as bad |
| Receiver.SlotRefines | crates/parachuter/src/reassembler.rs:386-467 | one packet over reloaded files is one packet on the manifest they hold |
| Receiver.ReloadingChangesNothing | crates/parachuter/src/reassembler.rs:386-467 | over whole runs, reloading the sidecar on every packet equals keeping manifests in memory |
| Recovery.UsefulPacket | crates/parachuter/src/reassembler.rs:181-263 | each new chunk or name lowers "missing chunks plus one if unnamed" by one, and answers `Complete` exactly at zero |
| Recovery.MeasureNeverRises | crates/parachuter/src/reassembler.rs:139-263 | no packet of the file raises the measure before the file lands |
| Recovery.RoundCompletes | demo/src/main.rs:207-247 | from any reachable assembly in which a chunk or the name is missing, the name if absent plus every missing range, ranges in any order, is `Accepted` throughout and `Complete` exactly at the last packet |
| Recovery.RoundLands | demo/src/main.rs:207-247 | and that round puts the file, byte for byte, at its landing place |
| NameAnywhere.AnyOrderCompletes | crates/parachuter/src/reassembler.rs:181-263 | the same with the name anywhere among the chunks: accepted throughout, `Complete` exactly at the last packet |
| MixedSizes.ToldApartLandsWell | crates/parachuter/src/reassembler.rs:145-190 | packets of several chunk sizes with different counts, interleaved at will, land the right bytes |
| MixedSizes.LandsWellIffToldApart | crates/parachuter/src/reassembler.rs:170-174 | every interleaving lands the right bytes if and only if no two sizes give the same count above one |
| Queue.PacketQueue.PopFront | crates/parachuter/src/sender/queue.rs:79-85 | takes the head and moves the revision, or leaves an empty queue alone |
| Queue.PacketQueue.TakeSnapshot | crates/parachuter/src/sender/queue.rs:111-128 | the loop builds the per-file index of the whole queue |
| Queue.SameRevisionSameQueue | crates/parachuter/src/sender/queue.rs:67-108 | two moments of a run have equal revisions exactly when a multiple of 2^64 effective changes lies between; with fewer, their queues are equal |
| Queue.SnapshotAgrees | crates/parachuter/src/sender/queue.rs:111-128 | one entry per queued file, in id order, with exactly that file's ranges and whether its name is pending |
| Queue.ContainsChunkAgrees | crates/parachuter/src/sender/queue.rs:132-139 | a chunk is queued exactly when its file's entry has a range with it |
| Queue.IntersectsIffShared | crates/parachuter/src/cleaner/mod.rs:263-268 | for nonempty ranges the overlap test means some chunk is shared |
| SenderBook.ServeShifts | crates/parachuter/src/sender/state.rs:356-415 | serving the head sends the first queued packet and leaves the rest first in line |
| SenderBook.NothingIsLostUnaccounted | crates/parachuter/src/sender/state.rs:143-420 | over every run, requested packets are sent, dropped or still queued, as multisets |
| SenderBook.DrainsInOrder | crates/parachuter/src/sender/state.rs:337-420 | left alone, the sender sends the flattened queue in order, depth falling by one each time |
| SenderBook.RunInOrder | crates/parachuter/src/sender/state.rs:265-420 | while nothing is dropped, each request's packets are sent and queued in the order asked for |
| SenderBook.SentIsPrefix | crates/parachuter/src/sender/state.rs:337-420 | and what is sent of a request is a prefix of it |
| SenderBook.NameGoesFirst | crates/parachuter/src/sender/state.rs:265-290 | before any chunk of a full-file push goes out its name packet has, in every interleaving, interrupting or not |
| Ledger.Ledger.Upsert | crates/parachuter/src/ledger.rs:107-148 | a known name keeps its row and id; a new one gets an id never used, and an untouched rest |
| Ledger.Ledger.MarkGone | crates/parachuter/src/ledger.rs:183-189 | each row of that name is the old row flagged as gone, and every other row is unchanged |
| Ledger.Ledger.MarkQueued | crates/parachuter/src/ledger.rs:194-200 | that row is the old row with the time, and every other row is unchanged |
| Ledger.Ledger.All | crates/parachuter/src/ledger.rs:204-214 | every row, once, by ascending id |
| Sender.SenderRuntime.Enqueue | crates/parachuter/src/sender/state.rs:156-190 | unknown id and start past the end refused; whole file when negative; else a clamped nonempty range, at the back or the front; books, ranges and ledger stated |
| Sender.SenderRuntime.Submit | crates/parachuter/src/sender/state.rs:205-250 | each way a path is refused, else the row kept or made and name plus data queued together |
| Sender.SenderRuntime.ResendName | crates/parachuter/src/sender/state.rs:253-263 | the name packet of a known file cuts in |
| Sender.SenderRuntime.PushFullFile | crates/parachuter/src/sender/state.rs:265-290 | name directly before data, in both push orders, and the row stamped |
| Sender.SenderRuntime.FlushQueue | crates/parachuter/src/sender/state.rs:151-153 | everything queued is dropped and booked as such |
| Sender.SenderRuntime.SetState | crates/parachuter/src/sender/state.rs:143-148 | every state but auto starts from an empty queue |
| Sender.SenderRuntime.OverrideChunkSize | crates/parachuter/src/sender/state.rs:121-126 | sizes outside the limits are refused |
| Sender.SenderRuntime.SendNext | crates/parachuter/src/sender/state.rs:337-420 | one packet out with the residue put back, or the whole item dropped; paused or empty does nothing; the answer, wire, queue, books and ledger; and the call returns unless a cut packet exceeds one second of the link's traffic |
| Running.Run | crates/parachuter/src/sender/state.rs:297-311 | the loop over calls of `SendNext` sends, leaves queued and ends as the run function says |
| Running.HeadDecides | crates/parachuter/src/sender/state.rs:337-420 | a turn lets the loop go on exactly when nothing is queued, or the head's file is readable and reaches its chunk and its datagram fits and the link is up, or the head is a chunk of a known file that has vanished |
| Running.GoesOnIff | crates/parachuter/src/sender/state.rs:297-420 | over any number of turns the loop is still going if and only if every head got that at its turn |
| Running.VanishedNameKills | crates/parachuter/src/sender/state.rs:350-371 | a queued name of a vanished file ends the loop and loses all behind it; a queued chunk of one is dropped and the loop goes on |
| Sender.SenderRuntime.ServeItem | crates/parachuter/src/sender/state.rs:349-415 | opens the file, cuts the packet, waits for the limiter, hands it to the link; a vanished file of a chunk is marked gone |
| Vanished.FlagTravels | crates/parachuter/src/ledger.rs:219-245 | the dumped and parsed snapshot of a ledger with a file flagged as gone has that file's row with the flag down |
| Vanished.VanishedNeverAsked | crates/parachuter/src/sender/state.rs:363-371 | once serving a chunk has met a vanished file, no reconcile pass on a snapshot of the ledger taken then or at any time later asks for it |
| Sender.TotalFits | crates/parachuter/src/chunker.rs:148-154 | below 2^37 bytes no legal datagram size makes the count wrap or vanish |
| Sender.OutIsCut | crates/parachuter/src/sender/state.rs:337-420 | whatever goes out is a packet cut from the file on disk at the size in use |
| Sender.OutIsSent | crates/parachuter/src/sender/state.rs:337-420 | so whatever the sender serves is a packet the ground's safety claim covers |
| Sender.SteadyGoesOut | crates/parachuter/src/sender/state.rs:337-420 | while the file, its size and the link stay, a queued item inside its file goes out if its datagram fits the limiter's bucket and blocks the sender if not |
| Dedup.DedupTable.TryInsert | crates/parachuter/src/cleaner/dedup.rs:93-108 | refused exactly while live, else held for the time to live |
| Dedup.DedupTable.Gc | crates/parachuter/src/cleaner/dedup.rs:110-113 | drops exactly the expired entries, so which requests are held back from now on does not change |
| Dedup.DedupTable.Save | crates/parachuter/src/cleaner/dedup.rs:65-88 | keeps every live request, its time left rounded down by less than a second |
| Dedup.DedupTable.Load | crates/parachuter/src/cleaner/dedup.rs:48-63 | each saved entry held for its seconds from the time of loading |
| Dedup.RestartKeepsHold | crates/parachuter/src/cleaner/dedup.rs:48-88 | save then load keeps every live request held until later than its old expiry minus one second |
| Dedup.AcceptedApart | crates/parachuter/src/cleaner/dedup.rs:93-113 | two accepted inserts of one key are a time to live apart in any run, less than a second less for each restart between |
| Dedup.AcceptedAgainIff | crates/parachuter/src/cleaner/dedup.rs:93-108 | after an accepted insert, with no restart and no accepted insert of the key between, another is accepted if and only if the time to live has passed |
| Dedup.FreeAfter | crates/parachuter/src/cleaner/dedup.rs:48-113 | across restarts too, a key is free again once its time to live, and the time the process was down, have passed |
| Dedup.FirstIsAccepted | crates/parachuter/src/cleaner/dedup.rs:93-108 | the first insert of a key the table does not hold is accepted, in any run |
| Dedup.GcIsInvisible | crates/parachuter/src/cleaner/dedup.rs:110-113 | removing every collection from a run changes no answer |
| Cleaner.MakePlan | crates/parachuter/src/cleaner/mod.rs:169-184 | the planning loops: the name if absent, then the gaps, file by file |
| Cleaner.PlanIsApart | crates/parachuter/src/cleaner/mod.rs:169-184 | no chunk and no name is planned twice in a pass |
| Cleaner.GapsPlanned | crates/parachuter/src/cleaner/mod.rs:169-184 | the planned ranges of a file cover exactly its missing chunks |
| Cleaner.RunPass | crates/parachuter/src/cleaner/mod.rs:186-237 | the request loop with budget, pending check, dedup, spacing sleep and replies; then collection and save |
| Cleaner.PendingIffQueued | crates/parachuter/src/cleaner/mod.rs:246-268 | over every queue of nonempty ranges, a request counts as pending if and only if one of its chunks, or its name, is queued |
| Cleaner.AskedWithoutDelay | crates/parachuter/src/cleaner/mod.rs:200-214 | a request goes out when it is ready and spaced, no later, and is remembered for the time to live whether acknowledged or not |
| Cleaner.FirstAskedAtOnce | crates/parachuter/src/cleaner/mod.rs:186-214 | the first request of a pass does not wait, for spacings up to a minute |
| Cleaner.PassKeepsBudget | crates/parachuter/src/cleaner/mod.rs:186-232 | acknowledged requests never exceed the budget and requests are at least the minimum period apart |
| Cleaner.PassAsksForGaps | crates/parachuter/src/cleaner/mod.rs:186-232 | over the sender's queue itself: only planned, unremembered gaps of which no chunk is queued are asked for, and all of them unless the budget is spent |
| Cleaner.RequestedAsMeant | crates/parachuter/src/cleaner/mod.rs:215-223 | exactly the range asked for, at least one chunk and cut to the file, is queued if and only if it starts below 2^31 and inside the file; from 2^31 on the whole file is queued |
| ClosedLoop.NoneTwiceMeans | crates/parachuter/src/sender/queue.rs:132-139 | items clear of each other are items sharing no chunk of a file |
| ClosedLoop.StepSound | crates/parachuter/src/cleaner/mod.rs:169-268 | every step of cleaner, sender and ground keeps the closed-loop invariant |
| ClosedLoop.NeverQueuedTwice | crates/parachuter/src/cleaner/mod.rs:169-268 | so does every interleaving: nothing queued twice, everything asked for missing when planned |
| ClosedLoop.FromAnyQueue | crates/parachuter/src/sender/queue.rs:111-128 | starting from any queue with nothing twice in it |
| Cleaner.UnhinderedPassAsksAll | crates/parachuter/src/cleaner/mod.rs:186-232 | with nothing of the plan queued or remembered, all requests acknowledged and the budget wide enough, the loop asks for the whole plan in order |
| PassRun.Hear | crates/parachuter/src/cleaner/mod.rs:215-223 | what the sender's runtime does with a request is what the closed loop says it does |
| PassRun.AskFromIsLoop | crates/parachuter/src/cleaner/mod.rs:186-232 | the request loop is a run of the closed loop, and the queue it leaves is what hearing its calls, any of them lost, makes of it |
| PassRun.PassIsLoop | crates/parachuter/src/cleaner/mod.rs:141-237 | so is a whole pass with its planning |
| PassRun.PassQueuesNothingTwice | crates/parachuter/src/cleaner/mod.rs:141-237 | so no pass queues a chunk twice, whichever requests are heard |
| FullCircle.PlanQueued | crates/parachuter/src/sender/state.rs:156-190 | the plan for any files, its requests interrupting, leaves the sender with the last file's gaps first, last gap first, each file's missing name behind its gaps |
| FullCircle.QueueServed | crates/parachuter/src/sender/state.rs:297-420 | the sender's loop empties that queue and goes on, having sent each file's missing chunks and then its missing name |
| FullCircle.AllComeDown | crates/parachuter/src/receiver.rs:49-78 | those packets land every file of which something is missing, one after another, and touch nothing else |
| FullCircle.PassBringsAllDown | crates/parachuter/src/cleaner/mod.rs:141-237 | one pass over all files in flight, heard in full and served to the end, lands exactly those of which a chunk or the name is missing, each byte for byte; the others and everything else stay as they were |
| Stranded.AnyFileMayStrand | crates/parachuter/src/reassembler.rs:218-226 | any file can be left complete and not landed, by cutting the power during its last packet |
| Stranded.PowerCutStrands | crates/parachuter/src/reassembler.rs:218-226 | the cut after any completing packet does this |
| Stranded.ChunkCannotLand | crates/parachuter/src/reassembler.rs:172-226 | every chunk then answers `Duplicate` or `Mismatched` and the file stays stranded |
| Stranded.StrandedLandsIffNamed | crates/parachuter/src/reassembler.rs:235-263 | over every run of its packets, at any of its chunk sizes, a stranded file lands if and only if a name packet of its count comes |
| Stranded.CanFinishIffCountsMatch | crates/parachuter/src/reassembler.rs:170-174 | over every run of a cut's packets, a begun assembly can be landed if and only if it was begun at that cut's count |
| Csv.SplitCsvLine | crates/parachuter/src/reconcile.rs:130-148 | the character loop with quote state and lookahead splits as the function does |
| Csv.SplitLine | crates/parachuter/src/ledger.rs:284-291 | splitting escaped fields joined by commas gives the fields back, for any text |
| Csv.QuotedIff | crates/parachuter/src/ledger.rs:284-291 | a field is quoted exactly when it has a comma, a quote or a newline |
| Csv.QuotesAnywhere | crates/parachuter/src/reconcile.rs:130-148 | quotes may open and close anywhere in a field; commas between them belong to it |
| Csv.CrLf | crates/parachuter/src/reconcile.rs:87 | a carriage return before a newline belongs to the line ending |
| Csv.LastLine | crates/parachuter/src/reconcile.rs:87 | the last line of a text need not end |
| Csv.DigitsMean | crates/parachuter/src/reconcile.rs:108-119 | a number without a sign is one or more of the ten digits and nothing else |
| Csv.NumbersMean | crates/parachuter/src/reconcile.rs:108-119 | which text is a number: one sign at most, digits, in range, no minus on unsigned ones |
| Csv.IntRoundTrip | crates/parachuter/src/ledger.rs:219-245 | decimal integers, negative ones too, read back as written and need no quoting |
| Snapshot.DumpCsv | crates/parachuter/src/ledger.rs:219-245 | the header and one line per row, by ascending id |
| Snapshot.ParseSnapshot | crates/parachuter/src/reconcile.rs:86-126 | the loop over non-blank lines with columns found by name; the first malformed row refuses the text |
| Snapshot.HeaderNames | crates/parachuter/src/ledger.rs:222-225 | the eleven column names in order |
| Snapshot.OtherColumnsRead | crates/parachuter/src/ledger.rs:226-242 | the columns the reconciler ignores read back as well, and the flag is a `t` or an `f` |
| Snapshot.HeaderServes | crates/parachuter/src/reconcile.rs:91-99 | a header is accepted exactly when id, name and size are among its columns |
| Snapshot.RowMeans | crates/parachuter/src/reconcile.rs:108-116 | a row is accepted exactly when its id and size are numbers that fit and its name is there, and carries them |
| Snapshot.OlderRow | crates/parachuter/src/reconcile.rs:100-124 | absent columns mean an existing file without times, unreadable times none; the words that mean gone |
| Snapshot.VisibleKept | crates/parachuter/src/reconcile.rs:87 | a line with anything but ASCII white space in it counts |
| Snapshot.BlankSkipped | crates/parachuter/src/reconcile.rs:87 | blank lines make no difference |
| Snapshot.DumpRoundTrip | crates/parachuter/src/reconcile.rs:86-126 | reading a dumped ledger gives every row's id, name, size, flag and times if no name has a newline, and an error if one has |
| Reconcile.VerdictsMean | crates/parachuter/src/reconcile.rs:192-234 | exactly when each of the seven verdicts is given, and what it carries, over what is landed, under way, queued, gone and recent, in nanoseconds |
| Reconcile.TallyIsAccount | crates/parachuter/src/reconcile.rs:237-302 | each counter of a pass is the number of rows that stand so: complete ones are those whose landing place holds exactly the recorded number of bytes |
| Reconcile.FromPlan | crates/parachuter/src/reconcile.rs:280-302 | each counter counts its verdict, the seven sum to the total, stale ones are among those in flight |
| Reconcile.ReconcileState.Run | crates/parachuter/src/cleaner/reconciler.rs:61-174 | one pass on the request memory: early end without a snapshot, its error, forgetting, whole-file requests, and the count of the snapshot's rows by how they stand |
| Reconcile.RequestsApart | crates/parachuter/src/cleaner/reconciler.rs:113-174 | over any run with a monotone clock, an accepted request and any later one for the same file are a period apart, and never in one pass |
| Reconcile.LostAskedIff | crates/parachuter/src/cleaner/reconciler.rs:110-166 | where the sender answers, a lost file is asked for if and only if no request for it is remembered from less than a period ago |
| Reconcile.DueIffForgotten | crates/parachuter/src/cleaner/reconciler.rs:52-56 | a pass is due exactly when a request of the last pass is forgotten; with no last pass at once |
| Reconcile.ScheduledPassForgets | crates/parachuter/src/cleaner/reconciler.rs:52-56 | at a scheduled pass every remembered request has expired, so each missing file is asked for if the sender answers |
| Reconcile.PassDated | crates/parachuter/src/cleaner/reconciler.rs:61-174 | the memory never holds a request later than the last pass |
| Reconcile.AskedWasLost | crates/parachuter/src/reconcile.rs:192-234 | every request is for a row of that pass's snapshot not landed, not in flight, not queued, still on the payload and past its grace period |
| Reconcile.HeldNeverAsked | crates/parachuter/src/reconcile.rs:211-215 | over any run, a file with an assembly in the holding directory is never requested |
| Reconcile.LandedNeverAsked | crates/parachuter/src/reconcile.rs:192-211 | once something lies at a file's landing place no later pass asks for it, while the final directory only grows |
| RateLimiter.RateLimiter.SetKbps | crates/parachuter/src/rate_limiter.rs:43-46 | rate and bucket size change, tokens stay |
| RateLimiter.RateLimiter.RefillAt | crates/parachuter/src/rate_limiter.rs:63-68 | tokens accrue with the time since the last reading, up to the bucket |
| RateLimiter.RateLimiter.Acquire | crates/parachuter/src/rate_limiter.rs:49-61 | the wait loop returns at the first look with enough tokens and takes them |
| RateLimiter.AcquireReturns | crates/parachuter/src/rate_limiter.rs:49-68 | it returns if and only if the tokens are there or the rate is positive and the request fits the bucket; then after at most one sleep |
| RateLimiter.NewLimiterGrants | crates/parachuter/src/rate_limiter.rs:32-61 | a new limiter grants at once exactly what fits one second of traffic, or one byte |
| RateLimiter.SleepJustEnough | crates/parachuter/src/rate_limiter.rs:49-61 | a sleep that does not run over ends when the tokens asked for are just there |
| RateLimiter.SlowLinkBlocks | crates/parachuter/src/rate_limiter.rs:32-61 | a 30 kbit/s link never lets a 16192-byte datagram through |
| RateLimiter.ReturnsIffFits | crates/parachuter/src/rate_limiter.rs:49-61 | except for a single byte, the call returns if and only if the request fits one second of traffic |
| RateLimiter.WindowBound | crates/parachuter/src/rate_limiter.rs:32-68 | at one rate, at most bucket plus rate times length is granted in any window of any run |
| Demo.LossyLink.Transmit | demo/src/main.rs:114-123 | a packet is held for ever exactly when it does not fit the bucket; else it is counted, and dropped or delivered |
| Demo.LossyLink.TransmitAll | demo/src/main.rs:114-123 | packets up to the first one held are sent; what is not dropped is delivered in order, and the counters account for it |
| Demo.FirstPassLands | demo/src/main.rs:194-203 | a first pass that gets through lands the file |
| Demo.FirstPassPasses | demo/src/main.rs:194-203 | the first pass gets through the limiter exactly when the name and the first chunk make datagrams that fit |
| Demo.SlowDemoIsStuck | demo/src/main.rs:113-117 | at 30 kbit/s a first chunk of the default 4096-byte datagram never gets through |
| Demo.Recover | demo/src/main.rs:194-247 | the loop is stuck for ever if and only if one of those does not fit, and then nothing has landed; otherwise it ends with exactly the file landed, or after the last round, and every pass that did not land it lost a packet |

## Left out

- Sockets, multicast, tokio tasks, signals, configuration files and their watching: the link is any sequence of datagrams, control calls are method calls, and a request may fail or its reply be lost.
- SQLite, file-system and directory-walk internals: the ledger is a map with unique names, holding and final directories are maps; database errors other than exhausted ids are not modelled, and a synced data file is assumed durable, its directory entry too. `Delivery` takes a rename as durable at once; `Lagging` does so only for `finalize`.
- Reassembly.Reassembler.Finalize: the rename, its copy fallback and the removal of the sidecar (`reassembler.rs:318-326`) are one atomic step in the runs of `Delivery`, and have to be: `HalfLanded` shows that a cut between rename and removal breaks the safety claim, and exactly when. A cut inside the copy fallback is not modelled.
- Delivery.CrashConsistent: its cuts leave the sidecar last saved; those that leave an older one are in `Lagging.LagConsistent`.
- HalfLanded.HalfLandedStaysIff: packets of one cut; names that come before the first chunk change nothing and are not listed.
- Distinct files with one landing place: `Delivery.LandedFilesAreIdentical` then promises one of them, whole.
- UTF-8: names are byte sequences, so lossy decoding and Unicode white space in `trim` are not modelled.
- RFC 3339 text of times: decimal nanoseconds stand in for it; only that it reads back and needs no quoting is used.
- Floating point: the rate limiter and the dedup clock use exact reals.
- Chunker.ChunksJoinToContent: the file cursor and short reads of `data_packet` are not modelled; an open file is a value.
- Packets.DamageRefused: damage on both sides of the CRC/payload boundary is excluded because some of it passes; `Straddle.MissedIffEscapes` is the exact condition.
- Straddle.MissedIffEscapes: the condition is decided here for payloads of none, one and, for the middle window, two bytes; at other lengths `Kernel.Dependent` has to be computed.
- Bitmaps.CompleteMeansAllSet: assumes a chunk count at which `(n + 7) / 8` does not wrap in `u32`; beyond it the source's slice would panic.
- Sender.SenderRuntime.SendNext: a call that would wait for ever ends the run; what it popped is then booked as dropped. Link and address overrides are left out.
- Running.Run: nothing is queued while it runs; the scan for work and the status dump between turns, whose errors end the loop too, are left out.
- Queue.Depth: unbounded, where `queue.rs:93-95` sums `u32`.
- Sender.SenderRuntime.Submit: assumes files below 2^37 bytes, where the chunk count fits `u32` at any legal size; probing the working directory is left out.
- Sender.SteadyGoesOut: files that change size while queued are not covered; `SendNext` then books the item as dropped.
- Cleaner.PassAsksForGaps: each sidecar is read twice while planning, as the source does, and the readings are given; an unreadable sidecar counts as absent, and requests that fail count as made for the dedup table, as in the source.
- ClosedLoop.NeverQueuedTwice: holds while the sender's status is available and files have fewer than 2^31 chunks; without a status only the dedup table holds requests back. Requests by operators and the reconciler, which may queue a file again on purpose, are not part of the loop.
- FullCircle.PassBringsAllDown: nothing else queued, nothing lost, the ground at rest while the pass plans, assemblies at the sender's chunk count, datagrams that fit the limiter's bucket; what losses leave is the next pass's work, and `Recovery.MeasureNeverRises` says they leave no less.
- Dedup.AcceptedApart: the table is taken to be saved whole at a restart; entries made after the last save are lost by a crash.
- Reconcile.RequestsApart: restarts between passes reload the saved memory unchanged; a crash inside a pass, which forgets the requests of that pass, and a missing or unreadable state file are not modelled.
- Reconcile.ReconcileState.Run: choosing the newest snapshot file and the spacing sleep are left out, and ages of assemblies are given.
- RateLimiter.RateLimiter.Acquire: a call that would wait for ever is watched for a given number of sleeps.
- Demo.LossyLink.TransmitAll: a send error, which ends the program, is left out.
- Demo.Recover: the ground takes each packet before the next is sent; losses in the operating system's buffer count as losses of the link.
- The scanner, the command line, the monitor, the relay and the web page, apart from the CRC in `index.html`.
