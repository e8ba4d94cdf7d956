# A verified model of the gateway's media tunnel, caches, download control and catalogs

The gateway carries HTTP bodies between two networks as RTP packets holding an MPEG program stream,
keeps a cache of downloaded segments, shares bandwidth among downloads, and publishes a catalog of
devices by SIP messages over UDP. This project models that logic in Dafny and proves what it
guarantees: for every input, every run and every interleaving, not for samples.

`dafny verify dfyconfig.toml` checks the whole project.

| module | what it models |
|---|---|
| `Bytes`, `Seqs`, `Text` | big-endian fields, 16-bit sequence numbers, sequences, header text |
| `RtpHeader` | the fixed RTP header, section 5.1 of RFC 3550 |
| `PsCodec` | pack header and PES writers and the incremental decoder (sections 2.4.3.6 and 2.5.3.3 of ISO/IEC 13818-1) |
| `Reorder` | the reorder buffer of the receiver |
| `Fec` | XOR parity payloads, recovery of one lost packet, the tracker on the receiving side |
| `MediaSender` | the read-ahead loop, slicing, numbering and parity groups |
| `MediaReceiver` | truncation to the announced length and completion |
| `MediaTunnel` | sender, reorder buffer, decoder and receiver together |
| `ParityRuns`, `MediaRepair` | a stream with parity runs as the tracker sees it, and the receiver that rebuilds lost packets |
| `LossyTunnel` | the whole tunnel over a lossy network |
| `SegmentCache` | the byte-budgeted cache with expiry that evicts the least recently used segment |
| `SingleFlight` | the loader shared by concurrent callers, as steps between lock regions |
| `DownloadControl` | leases, fair shares, floor, breakers and pruning of the download controller |
| `DownloadTotals` | the rates of all downloads together |
| `DownloadBreaker`, `TargetHistory`, `SourceConstraint` | breakers of transfers and targets, what is held against a target, and the source constraint, over whole runs |
| `CatalogPlan`, `CatalogMerge` | cutting a catalog into UDP messages and putting it together again |
| `CatalogRegistry` | the two indexes between local ports and devices |
| `CleanupSchedule` | the cron expression of the log cleanup and its search for the next time |
| `CookieCompaction` | compaction of a Cookie header to a length limit |

Objects that the gateway updates in place are classes. Each method is proved equal to a step on an
abstract value (`View()`), and the theorems about whole runs are about those steps. Where the
gateway iterates over a map, the model picks the next key arbitrarily.

## What the code does not guarantee

Some properties one would expect do not hold of the code. Here is each with the condition under
which it does.

- An empty read without an error ends the sending loop and the rest of the body is lost, without an
  error (`MediaSender.StallExample`); the body is complete exactly when no data follows such a read
  (`MediaSender.WholeBodyIsSent`).
- The static program stream map announces two bytes more than it has, so the decoder swallows two
  bytes of what follows (`PsCodec.StreamMapSwallowsTwo`) and loses the first packet. A static stream
  of one packet, or of any length without a start code in its first packet, gives its body back
  exactly when the body is empty (`PsCodec.StaticStreamReturnsOnlyNothing`), which is the only body
  the gateway builds one for.
- The rates granted to the active downloads together may exceed the configured total, because a rate
  is fixed when its lease is taken. With at most n downloads at a time they stay within it, in every
  run, exactly when the rates of n successive starts do (`DownloadTotals.SumFitsExactly`). With more
  transfers than bits to share, the share rounds to nothing and every transfer gets the full bitrate
  (`DownloadControl.RateFitsExactly`).
- The configured minimum rate does not lift a share that is too small. It is granted only where the total
  covers it for all transfers, and then the share is at least as large; so it changes a rate exactly where
  it exceeds the bitrate (`DownloadControl.FloorIsRare`).
- Ordinary failures of a download whose segments follow one another never open its breaker
  (`DownloadBreaker.SequentialNeverTrips`), although a comment in the code speaks of a failure history;
  a failed segment opens it exactly when it is severe or the failures of overlapping segments reach
  the threshold (`DownloadBreaker.SegmentTrips`).
- Two slow readings of a target in a row need not hold it back: a segment of another download from it
  that starts between them can drop the first one (`SourceConstraint.SegmentForgetsReading`). A slow
  reading holds the target back exactly if an earlier slow reading has not been cleared
  (`TargetHistory.SlowReadingOpens`). What clears it is a single-segment reading; a look at an expired
  constraint; the end of the last segment under the target's own key by an ordinary failure below the
  threshold; and, where no lease under that key and no breaker or constraint still open keeps the
  entry, a prune, a look at the target's breaker with no failure counted or the breaker expired, a
  good result, or the end of the last segment under that key (`TargetHistory.Clears`). A new segment
  or a breaker query looks at the target's breaker unless the breaker of its own transfer answers.
- A lost packet in the run of the first packet of a stream is not rebuilt for nearly half of the
  numbers that a stream can start with. Before the buffer has started it expects number 0, and the
  tracker forgets a first packet that lies too far behind that. If all others of the run arrive once,
  the lost packet is rebuilt exactly if the first number does not lie between 32768 and 65536 less the
  memory limit (`MediaRepair.FirstNumberDecides`, `MediaRepair.FirstLossStays`). What is released is
  stated for every number (`MediaRepair.RepairingReceiver.Receive`).
- A catalog with a device too large for any message is never completed on the other side, because
  the dropped device is still announced (`CatalogMerge.LossyPlanIsShort`, `CatalogMerge.NeverCompletes`);
  one without is completed exactly when its last chunk arrives (`CatalogMerge.CompletesExactly`).
- Two mappings with one port leave the registry's indexes inconsistent; they are inverse exactly when
  no port occurs twice (`CatalogRegistry.InverseIffDistinct`).

## Model

| member | source | states |
|---|---|---|
| `RtpHeader.DecodeEncode` | gateway-server/internal/server/gb28181_media_sender.go:77-95 | A written packet decodes to the same header fields and payload, for all field values (the payload type to seven bits) |
| `RtpHeader.EncodeDecode` | gateway-server/internal/server/gb28181_media_ps_codec.go:9-42 | Writing a decoded packet again gives the same bytes exactly when the first byte is 0x80: version 2, no padding, extension or contributing sources |
| `RtpHeader.EncodeLayout` | gateway-server/internal/server/gb28181_media_sender.go:77-95 | In the bytes of a written packet number, time stamp and source stand big-endian at their places in the fixed header, and the payload behind it |
| `RtpHeader.EncodeStart` | gateway-server/internal/server/gb28181_media_sender.go:77-95 | The first two bytes announce version 2 and no options, and carry marker and payload type |
| `RtpHeader.DecodedPayloadIsSlice` | gateway-server/internal/server/gb28181_media_ps_codec.go:9-42 | A packet is accepted exactly if it has version 2, no extension, all its contributing sources and, where announced, padding of at least one byte behind them; its payload is what lies between sources and padding |
| `PsCodec.ScrRoundTrip` | gateway-server/internal/server/gb28181_media_ps_codec.go:67-83 | The 33-bit clock reference can be read back from the pack header and the marker bits are set |
| `PsCodec.PtsRoundTrip` | gateway-server/internal/server/gb28181_media_ps_codec.go:108-116 | The 33-bit time stamp can be read back from its five bytes and the marker bits are set |
| `PsCodec.FragmentLayout` | gateway-server/internal/server/gb28181_media_sender.go:225-228 | In the bytes of a written fragment the clock, the time stamp and the payload stand at fixed places and can be read back |
| `PsCodec.MuxRateIs` | gateway-server/internal/server/gb28181_media_ps_codec.go:67-83 | The pack header announces a multiplex rate of 50000 and no stuffing |
| `PsCodec.ParseAppend` | gateway-server/internal/server/gb28181_media_ps_codec.go:122-199 | Parsing two pieces one after the other is parsing them at once, for arbitrary bytes |
| `PsCodec.SplitInvariance` | gateway-server/internal/server/gb28181_media_ps_codec.go:122-199 | Any division of any byte stream into writes gives the chunks, residue and error of one write; after an error, the chunks up to it |
| `PsCodec.RestIsStable` | gateway-server/internal/server/gb28181_media_ps_codec.go:122-199 | The residue of an error-free write yields nothing further by itself |
| `PsCodec.RestIsBounded` | gateway-server/internal/server/gb28181_media_ps_codec.go:122-199 | The residue of an error-free write is at most 65540 bytes |
| `PsCodec.FragmentDecodes` | gateway-server/internal/server/gb28181_media_sender.go:225-228 | A pack header and PES decode to their payload, whatever follows, exactly when the payload is at most 65527 bytes; a longer one is an error |
| `PsCodec.StaticStreamEmitsNothing` | gateway-server/internal/server/gb28181_media_ps_codec.go:44-65 | The static program stream without body, whose stream map announces two bytes too many, decodes to no chunk |
| `PsCodec.StreamMapSwallowsTwo` | gateway-server/internal/server/gb28181_media.go:23-24 | The static stream map makes the decoder skip the two bytes behind it, whatever they are |
| `PsCodec.BuildProgramStream` | gateway-server/internal/server/gb28181_media_ps_codec.go:44-65 | The building loop cuts a body into packets of 60000 bytes behind the static headers |
| `PsCodec.StaticStreamReturnsOnlyNothing` | gateway-server/internal/server/gb28181_media_ps_codec.go:44-65 | A static stream gives its body back exactly if the body is empty, for every body that fits one packet or has no start code in its first packet |
| `PsCodec.FirstPacketIsLost` | gateway-server/internal/server/gb28181_media_ps_codec.go:44-65 | If the first packet holds no start code, a static stream of any length decodes to all its packets but the first |
| `PsCodec.ChunksCost` | gateway-server/internal/server/gb28181_media_ps_codec.go:122-199 | Whatever bytes come in, every chunk costs at least nine bytes of header |
| `PsCodec.ProgramStreamDecoder.Write` | gateway-server/internal/server/gb28181_media_ps_codec.go:122-199 | The decoding loop over the buffer field emits and keeps exactly what parsing the buffered and new bytes gives |
| `Reorder.FlushIsExact` | gateway-server/internal/server/rtp_reorder.go:169-184 | Flushing releases the unbroken run of waiting packets from the due one, across the wrap of 16-bit numbers |
| `Reorder.PushIsExact` | gateway-server/internal/server/rtp_reorder.go:122-167 | With window w and tolerance t, a pushed packet releases exactly the packets that became due; it is given up exactly beyond w + t packets past the first missing one, tolerated between w and w + t, and otherwise in order, late, a duplicate or buffered as its place among the arrivals says |
| `Reorder.DeliverFrom` | gateway-server/internal/server/rtp_reorder.go:139-184 | After any arrivals, in any order and with repetition, what was released is the longest prefix of which everything arrived |
| `Reorder.ReorderIsExact` | gateway-server/internal/server/rtp_reorder.go:23-184 | A new buffer gives up exactly if some arrival lies beyond the configured window and tolerance together, 8 and 2 by default; else it has released everything from the first arrival to the first missing packet |
| `Reorder.ReorderBuffer.constructor` | gateway-server/internal/server/rtp_reorder.go:23-39 | A window not positive becomes 8 and a tolerance below zero becomes 2 |
| `Reorder.ReorderBuffer.Push` | gateway-server/internal/server/rtp_reorder.go:139-167 | The buffer object behaves as the specified push |
| `Reorder.ReorderBuffer.FlushReady` | gateway-server/internal/server/rtp_reorder.go:169-184 | The flush loop over the pending map releases the specified packets |
| `Fec.ParseBuild` | gateway-server/internal/server/rtp_fec.go:27-97 | Every buildable parity payload parses to the base number, lengths and parity it was built from |
| `Fec.MixWithout` | gateway-server/internal/server/gb28181_media_sender.go:317-340 | Taking one packet out of the parity of a group is one more XOR with it, zero-padded |
| `Fec.MixOnly` | gateway-server/internal/server/gb28181_media_sender.go:317-340 | Taking out all but one packet leaves that packet, zero-padded |
| `Fec.TryRecover` | gateway-server/internal/server/rtp_fec.go:194-234 | If exactly one packet of the group is missing and the parity describes the group, the result is that packet, cut to its recorded length; a result always is the one missing packet |
| `Fec.XorAll` | gateway-server/internal/server/rtp_fec.go:220-226 | XOR of the parity with all packets present is the missing one, zero-padded |
| `Fec.XorInto` | gateway-server/internal/server/rtp_fec.go:220-226 | The XOR loop changes every byte of the buffer by the padded packet |
| `Fec.RecoverGenuine` | gateway-server/internal/server/rtp_fec.go:194-234 | Recovery from a group that describes what was sent gives what was sent |
| `Fec.CollectedIsGenuine` | gateway-server/internal/server/rtp_fec.go:162-192 | A group filled from recent packets stays true of what was sent, and one packet is missing from it exactly when that one alone is not recent |
| `Fec.ParityTracker.ObserveData` | gateway-server/internal/server/rtp_fec.go:138-160 | Data keeps the tracker true of what was sent; it recovers only what was sent, and every packet that it leaves alone missing in an open group; the open groups and remembered packets afterwards are stated exactly |
| `Fec.ParityTracker.ObserveFec` | gateway-server/internal/server/rtp_fec.go:162-192 | A parity packet is accepted exactly when it parses; a genuine one recovers the one packet of its group that is not remembered, or leaves its group open |
| `Fec.ParityTracker.Offer` | gateway-server/internal/server/rtp_fec.go:138-160 | One packet offered to one group closes it exactly when one packet is then left, and recovers that packet |
| `Fec.ParityTracker.Trim` | gateway-server/internal/server/rtp_fec.go:236-255 | Trimming forgets exactly the packets and groups further behind than the limit |
| `MediaSender.SlicesConcat` | gateway-server/internal/server/gb28181_media_sender.go:309-316 | The slices of a fragment, in order, are the fragment, and all but the last are full |
| `MediaSender.RunsPartition` | gateway-server/internal/server/gb28181_media_sender.go:284-342 | Parity groups are adjacent runs of 2 to g packets from the first one on, leaving at most the last packet unprotected |
| `MediaSender.ParityCovers` | gateway-server/internal/server/gb28181_media_sender.go:283-340 | With parity switched on and a group size above one there is one parity packet for every full group and for a rest of two or more, so that every slice is covered but a single one left over; otherwise there is none |
| `MediaSender.InterleavedOnly` | gateway-server/internal/server/gb28181_media_sender.go:309-340 | Taken apart, what goes out for a fragment is its data packets in order and its parity packets in order |
| `MediaSender.ParityPlace` | gateway-server/internal/server/gb28181_media_sender.go:332-340 | A parity packet stands right behind the last data packet of its run |
| `MediaSender.DataAt` | gateway-server/internal/server/gb28181_media_sender.go:309-322 | Where each slice of each fragment of a stream stands among the data packets, and every field of its header |
| `MediaSender.ParityAt` | gateway-server/internal/server/gb28181_media_sender.go:292-308 | Where each parity packet of a stream stands among the parity packets, every field of its header, and its payload |
| `MediaSender.PartsAre` | gateway-server/internal/server/gb28181_media_sender.go:214-240 | Every fragment of a stream carries its chunk, the identities of the sender, its group size and a time stamp 3600 ticks after the one before |
| `MediaSender.OnlyLastIsMarked` | gateway-server/internal/server/gb28181_media_sender.go:214-240 | Of a body read without failure and without a stall exactly the last data packet is marked; after a stall none is |
| `MediaSender.FecOverIsBuildable` | gateway-server/internal/server/rtp_fec.go:27-50 | A run can be protected exactly when it has 2 to 255 packets of 1 to 65535 bytes |
| `MediaSender.ParityFitsExactly` | gateway-server/internal/server/gb28181_media_sender.go:284-342 | All parity packets of n slices can be written exactly when there are none, or payloads are at most 65535 bytes and groups or slices at most 255 |
| `MediaSender.FecOverIsGenuine` | gateway-server/internal/server/gb28181_media_sender.go:284-342 | The parity of a run is true of the packets sent under its numbers |
| `MediaSender.ParityIsRead` | gateway-server/internal/server/gb28181_media_sender.go:284-342 | The parity packet of every run that the format can hold parses to the description of that run |
| `MediaSender.ParityIsGenuine` | gateway-server/internal/server/gb28181_media_sender.go:284-342 | For every fragment, payload size and group size, that description is true of the packets sent, so any one lost packet can be rebuilt |
| `MediaSender.NumberedIsConsecutive` | gateway-server/internal/server/gb28181_media_sender.go:316-319 | Data packets carry consecutive 16-bit numbers |
| `MediaSender.PlanSends` | gateway-server/internal/server/gb28181_media_sender.go:195-245 | The read-ahead loop sends the bytes read up to the first empty read |
| `MediaSender.WholeBodyIsSent` | gateway-server/internal/server/gb28181_media_sender.go:195-245 | The whole body is sent exactly when no data follows an empty read |
| `MediaSender.StallLosesData` | gateway-server/internal/server/gb28181_media_sender.go:195-206 | What an empty read cuts off, for every script of reads |
| `MediaSender.StallExample` | gateway-server/internal/server/gb28181_media_sender.go:195-206 | A script of reads whose last byte is not sent, without an error |
| `MediaSender.FragmentsDecode` | gateway-server/internal/server/gb28181_media_sender.go:207-245 | The fragments of all chunks, one after the other, decode to the payloads of the chunks with nothing left over |
| `MediaSender.AllSlicesConcat` | gateway-server/internal/server/gb28181_media_sender.go:207-245 | The slices of all fragments are the fragments |
| `MediaSender.BodySender.SendStream` | gateway-server/internal/server/gb28181_media_sender.go:172-264 | The sending loop succeeds exactly when the reads do and the parity of every fragment can be written; then exactly the planned packets, data and parity in their order, have gone out, and the data packets carry the planned slices, consecutively numbered |
| `MediaSender.BodySender.SendChunk` | gateway-server/internal/server/gb28181_media_sender.go:225-245 | One chunk is wrapped and sent ahead of the chunks still to come; it fails exactly when its parity cannot be written |
| `MediaSender.BodySender.SendFragment` | gateway-server/internal/server/gb28181_media_sender.go:266-343 | Stated in the profile itself (slices of the configured size or 960, parity if switched on and the group size is above one): it succeeds exactly when every run can be protected; then the slices have gone out numbered, each run followed by its parity packet, and the counters have advanced |
| `MediaSender.BodySender.CloseGroup` | gateway-server/internal/server/gb28181_media_sender.go:284-307 | A group is closed with the parity packet of its run, or refused exactly when the format cannot hold it |
| `MediaSender.OpenGroup.Add` | gateway-server/internal/server/gb28181_media_sender.go:321-335 | The open group holds lengths, first number and in-place XOR of the slices since the last closed run |
| `MediaReceiver.WrittenIsPrefix` | gateway-server/internal/server/gb28181_media_receiver.go:159-169 | For every interleaving of length updates and decoded chunks the bytes written are a prefix of the decoded stream, and all of it while the length is not reached |
| `MediaReceiver.AnnouncedLengthIsMet` | gateway-server/internal/server/gb28181_media_receiver.go:431-457 | A length L announced before more than L bytes are written and not lowered later: at most L bytes are written, and completion means exactly the first L |
| `MediaReceiver.BodyReceiver.SetExpectedBytes` | gateway-server/internal/server/gb28181_media_receiver.go:159-169 | The expected length, once set, is only lowered |
| `MediaReceiver.BodyReceiver.ProcessOrderedPackets` | gateway-server/internal/server/gb28181_media_receiver.go:422-459 | The packet loop feeds the decoder and writes its chunks up to the expected length; it fails only where decoding fails, with a prefix of the decoded chunks written |
| `MediaReceiver.BodyReceiver.WriteChunk` | gateway-server/internal/server/gb28181_media_receiver.go:435-457 | A chunk is cut to the remaining length |
| `MediaReceiver.BodyReceiver.CheckComplete` | gateway-server/internal/server/gb28181_media_receiver.go:509-514 | The loop ends when the expected length is reached |
| `MediaTunnel.WireIsTransparent` | gateway-server/internal/server/gb28181_media_sender.go:77-95 | A sent packet is decoded as it was sent |
| `MediaTunnel.PrefixDecodes` | gateway-server/internal/server/gb28181_media_ps_codec.go:122-199 | Every prefix of the sent payloads decodes without error to a prefix of the chunks, all payloads to all chunks |
| `MediaTunnel.TunnelIsTransparent` | gateway-server/internal/server/gb28181_media_sender.go:195-245 | For every body, division into reads, payload size and order of arrival within the window, with repetition, the decoded bytes are a prefix of the body, and the body once every packet has arrived |
| `MediaTunnel.TunnelDelivers` | gateway-server/internal/server/gb28181_media_receiver.go:422-459 | With a length announced first, the receiver writes exactly that many bytes of the body and completes |
| `MediaRepair.RepairingReceiver.Receive` | gateway-server/internal/server/gb28181_media_receiver.go:591-680 | With parity and loss, for streams of any length and every first number: in whatever order and however often packets arrive after the first, the receiver fails exactly if something that an arrival makes known lies beyond the configured window and tolerance together; otherwise exactly the packets before the first one that neither arrived nor is alone missing in a run whose parity arrived are released, in order |
| `MediaRepair.WithinIsEnough` | gateway-server/internal/server/gb28181_media_receiver.go:591-680 | It does not fail as long as no arriving packet, nor the run of one, reaches further than the window past the first packet that has not arrived |
| `MediaRepair.RepairingReceiver.OnData` | gateway-server/internal/server/gb28181_media_receiver.go:652-679 | A data packet is taken exactly if what it recovers and then the packet itself lie within the window; afterwards the buffer knows exactly what arrived or can be recovered, and the tracker owes nothing |
| `MediaRepair.RepairingReceiver.OnParity` | gateway-server/internal/server/gb28181_media_receiver.go:595-630 | The same for a parity packet and what it recovers |
| `ParityRuns.DataServes` | gateway-server/internal/server/rtp_fec.go:138-160 | Trimming and closing of groups lose nothing that is still owed: after a data packet every run whose parity came is complete or open and lacking at least two packets |
| `ParityRuns.ParityServes` | gateway-server/internal/server/rtp_fec.go:162-192 | The same after a parity packet |
| `ParityRuns.LogGrows` | gateway-server/internal/server/rtp_fec.go:138-192 | With what the tracker recovers, what is known is exactly what arrived or is alone missing in a run whose parity arrived: nothing less and nothing more |
| `ParityRuns.RebaseGroups` | gateway-server/internal/server/rtp_fec.go:236-255 | Seen from a later packet, the groups that trimming left are still told apart by their 16-bit numbers, in a stream of any length |
| `MediaRepair.FirstNumberDecides` | gateway-server/internal/server/rtp_fec.go:236-246 | A packet lost in the run of the first packet, of which all others arrive once, is rebuilt exactly if the first number does not lie between 32768 and 65536 less the memory limit |
| `MediaRepair.FirstLossStays` | gateway-server/internal/server/rtp_fec.go:236-246 | With such a number, the first of two packets and their parity give only the first packet; with any other, both |
| `LossyTunnel.StreamIsProtected` | gateway-server/internal/server/gb28181_media_sender.go:284-342 | The parity packets of a whole stream of any length are genuine descriptions of disjoint runs |
| `LossyTunnel.GuardsAreRuns` | gateway-server/internal/server/gb28181_media_sender.go:284-342 | They are those of the runs that the sender closes, one for one |
| `LossyTunnel.WireIsCast` | gateway-server/internal/server/gb28181_media_sender.go:214-342 | The stream that the receiver is proved to rebuild is the one on the wire: the data packets that the sender writes, and byte for byte its parity packets |
| `LossyTunnel.ReceiveBody` | gateway-server/internal/server/gb28181_media_receiver.go:591-680 | Over a lossy network the receiver fails exactly if something an arrival makes known lies beyond the window, and not while arrivals and their runs stay within it; else what is decoded is a prefix of the body, and the body if every packet arrived or is alone missing in a run whose parity arrived |
| `SegmentCache.PruneIsExact` | gateway-server/internal/server/adaptive_delivery.go:529-547 | With a positive limit the survivors are exactly the longest most-recent-first prefix of unexpired entries that fits |
| `SegmentCache.HitIsLastStored` | gateway-server/internal/server/adaptive_delivery.go:440-455 | Over every run, a hit returns the data of the last accepted store for the key, unexpired |
| `SegmentCache.BudgetHolds` | gateway-server/internal/server/adaptive_delivery.go:491-547 | Over every run a positive limit is never exceeded |
| `SegmentCache.RunTracks` | gateway-server/internal/server/adaptive_delivery.go:433-547 | Over every run, every entry is the last accepted store of its key and the list is ordered by last use |
| `SegmentCache.StoreIsKept` | gateway-server/internal/server/adaptive_delivery.go:491-547 | In every state, a store of at most half the limit, not empty and with a lifetime not negative, is at the front and read back at once |
| `SegmentCache.StoreIsRefused` | gateway-server/internal/server/adaptive_delivery.go:491-499 | A store that is empty or takes more than half the limit, or any under a limit not positive, changes nothing |
| `SegmentCache.StoreIsRetained` | gateway-server/internal/server/adaptive_delivery.go:491-547 | It stays readable as long as it is unexpired and later uses of other entries leave room for it |
| `SegmentCache.GetIsSound` | gateway-server/internal/server/adaptive_delivery.go:440-455 | A lookup keeps keys distinct and the entries within the budget |
| `SegmentCache.StoreIsSound` | gateway-server/internal/server/adaptive_delivery.go:491-518 | A store keeps keys distinct and the entries within the budget |
| `SegmentCache.Cache.Get` | gateway-server/internal/server/adaptive_delivery.go:440-455 | The cache object, whose map and order list stay in bijection and whose byte count is the sum of sizes, looks up as specified |
| `SegmentCache.Cache.Store` | gateway-server/internal/server/adaptive_delivery.go:491-518 | It stores, replaces or refuses as specified |
| `SegmentCache.Cache.SetLimit` | gateway-server/internal/server/adaptive_delivery.go:433-438 | It takes a limit and prunes as specified |
| `SegmentCache.Cache.Prune` | gateway-server/internal/server/adaptive_delivery.go:529-547 | The two pruning loops over map and list keep exactly the specified prefix |
| `SegmentCache.Cache.RemoveEntry` | gateway-server/internal/server/adaptive_delivery.go:520-527 | An entry leaves map, list and byte count together |
| `SingleFlight.RunKeeps` | gateway-server/internal/server/adaptive_delivery.go:457-489 | Every step of every interleaving keeps the invariant of flights, leaders, waiters and data |
| `SingleFlight.OneLoaderPerKey` | gateway-server/internal/server/adaptive_delivery.go:457-489 | At most one loader runs per key |
| `SingleFlight.FlightsAreUnfinishedLoads` | gateway-server/internal/server/adaptive_delivery.go:457-489 | The flights map holds exactly the loads begun and not completed |
| `SingleFlight.WaiterSharesLeadersResult` | gateway-server/internal/server/adaptive_delivery.go:457-489 | A waiter that is not cancelled returns exactly what the leader of the flight it joined returned, data and error |
| `SingleFlight.SharingHappens` | gateway-server/internal/server/adaptive_delivery.go:457-489 | A run in which two callers ask for a key, one loads and both return what it loaded |
| `SingleFlight.DataBelongsToKey` | gateway-server/internal/server/adaptive_delivery.go:457-489 | Under every interleaving, what a caller returns came in for its key during the run: from the cache, data of a load without error or of a direct store; otherwise what a loader returned, error included |
| `SingleFlight.LoadIsCached` | gateway-server/internal/server/adaptive_delivery.go:477-480 | A load without error of at most half the limit is what the next caller of the key finds in the cache |
| `SingleFlight.LoadIsNotCached` | gateway-server/internal/server/adaptive_delivery.go:477-480 | A failed or empty load, or one over half the limit, leaves the cache as it was |
| `SingleFlight.CacheFollows` | gateway-server/internal/server/adaptive_delivery.go:457-489 | Under every interleaving the cache is the one left by a lookup of every caller, a store of every load without error, and the operations of others |
| `SingleFlight.FoundIsLastStored` | gateway-server/internal/server/adaptive_delivery.go:457-461 | So what a caller finds is the last store of its key that was not empty and took at most half the limit, unexpired |
| `SingleFlight.NobodyIsStuck` | gateway-server/internal/server/adaptive_delivery.go:457-489 | While a caller has not returned, some caller can move without a cancellation |
| `SingleFlight.StepsAreBounded` | gateway-server/internal/server/adaptive_delivery.go:457-489 | Every step of a caller brings it closer to returning and leaves the others alone |
| `DownloadControl.CountersAreExact` | gateway-server/internal/server/generic_download_control.go:335-363 | In every reachable state the segment counters equal the live leases and the transfer counters the keys with live leases, overall, per device and per transfer |
| `DownloadControl.LiveTransfersStay` | gateway-server/internal/server/generic_download_control.go:205-266 | No prune, query or cleanup removes the entry of a transfer with a live lease |
| `DownloadControl.AllReleasedIsZero` | gateway-server/internal/server/generic_download_control.go:426-494 | When every lease has been given back once, every counter is zero |
| `DownloadControl.ReleaseBalances` | gateway-server/internal/server/generic_download_control.go:426-454 | Giving a lease back undoes the counting of taking it |
| `DownloadControl.UpkeepKeepsLeases` | gateway-server/internal/server/generic_download_control.go:205-333 | Reports, queries and cleanups change no lease count |
| `DownloadControl.RankBound` | gateway-server/internal/server/generic_download_control.go:349-392 | Over every run, a live lease of the i-th oldest running transfer, granted among no more transfers than bits, holds a rate g with i times g at most the total |
| `DownloadTotals.SumIsBounded` | gateway-server/internal/server/generic_download_control.go:349-392 | Over every run with at most n transfers at a time, the rates of the active transfers together are at most the sum of the rates of n starts |
| `DownloadTotals.BoundIsAttained` | gateway-server/internal/server/generic_download_control.go:349-392 | n downloads that start one after the other attain that bound |
| `DownloadTotals.SumFitsExactly` | gateway-server/internal/server/generic_download_control.go:349-392 | The rates together stay within the total in every run with at most n transfers exactly when that sum, which can be computed beforehand, does |
| `DownloadTotals.TwoMayExceed` | gateway-server/internal/server/generic_download_control.go:365-373 | When one download may use the whole total, one never exceeds it and two can |
| `DownloadTotals.FullRateFalls` | gateway-server/internal/server/generic_download_control.go:365-384 | With more transfers the rate of a new one does not grow |
| `DownloadControl.RateFitsExactly` | gateway-server/internal/server/generic_download_control.go:365-392 | The active transfers at the granted rate stay within the total exactly when there are no more of them than bits, with floor and breaker taken into account |
| `DownloadControl.RateIsLargest` | gateway-server/internal/server/generic_download_control.go:365-386 | For every tuning, the rate behind a closed breaker is the largest one within the bitrate that the total allows for all transfers, or the minimum where the total covers it |
| `DownloadControl.FloorIsRare` | gateway-server/internal/server/generic_download_control.go:377-386 | The minimum changes a rate exactly where the total covers it and it exceeds the bitrate |
| `DownloadControl.OpenHalves` | gateway-server/internal/server/generic_download_control.go:387-392 | An open breaker halves the rate, rounding down, unless that would leave nothing |
| `DownloadControl.LeaseReports` | gateway-server/internal/server/generic_download_control.go:335-424 | After any run a new lease reports the live leases and transfers, itself among them, overall, for its device and for its transfer, and whether floor and split shaped its rates |
| `DownloadControl.NamesDecide` | gateway-server/internal/server/generic_download_control.go:335-360 | Leases count together exactly if device, target and transfer agree but for letter case and surrounding spaces; a transfer without a name goes by its target |
| `DownloadControl.RateHasFloor` | gateway-server/internal/server/generic_download_control.go:375-392 | If the total covers the minimum of all, every transfer gets the minimum, or half of it behind an open breaker |
| `DownloadControl.RatesArePositive` | gateway-server/internal/server/generic_download_control.go:365-403 | No rate is zero, and a segment never gets more than its transfer |
| `DownloadControl.SplitFitsExactly` | gateway-server/internal/server/generic_download_control.go:393-403 | The segments stay within their transfer exactly when it is split among no more of them than bits; then no higher rate would fit, and otherwise each gets the whole rate |
| `DownloadBreaker.FailureTrips` | gateway-server/internal/server/generic_download_control.go:69-114 | A failure of a target counts, and opens its breaker exactly when it is severe or the remembered failures reach the threshold |
| `DownloadBreaker.BreakerHolds` | gateway-server/internal/server/generic_download_control.go:205-266 | An open breaker stays open for its time through every run without a success of the target or a release under its own key |
| `DownloadBreaker.TrippedIsSeen` | gateway-server/internal/server/generic_download_control.go:247-266 | Until it closes, every lease for the target gets at most half the rate it would otherwise get, and every query says that it is open |
| `DownloadBreaker.RecordIsExact` | gateway-server/internal/server/generic_download_control.go:426-528 | Over every run, the failures and the breaker of a transfer are exactly its history: failed segments since a final success, the end of its last segment, a query or a prune cleared it |
| `DownloadBreaker.SweepsAreNoted` | gateway-server/internal/server/generic_download_control.go:224-245 | Pruning happens with the first operation that can, and then with one at least a minute after the last |
| `DownloadBreaker.SegmentTrips` | gateway-server/internal/server/generic_download_control.go:477-494 | After any run, a failed segment opens the breaker of its transfer exactly when it is severe or the failed segments that still count reach the threshold |
| `DownloadBreaker.OverlapTrips` | gateway-server/internal/server/generic_download_control.go:477-494 | A run in which two overlapping failed segments open it |
| `DownloadBreaker.SequentialNeverTrips` | gateway-server/internal/server/generic_download_control.go:456-494 | A transfer whose leases never overlap does not open its own breaker by ordinary failures when the threshold exceeds one |
| `DownloadControl.Controller.Acquire` | gateway-server/internal/server/generic_download_control.go:335-424 | The controller object takes a lease as specified: prune, count, query breaker and constraint, compute rates |
| `DownloadControl.Controller.Release` | gateway-server/internal/server/generic_download_control.go:426-494 | It gives a lease back as specified, with the effect of the outcome on the breaker |
| `DownloadControl.Controller.Prune` | gateway-server/internal/server/generic_download_control.go:224-245 | The pruning loop keeps exactly the entries in use or still held back |
| `DownloadControl.Controller.DropIfIdle` | gateway-server/internal/server/generic_download_control.go:205-222 | An idle entry is removed |
| `DownloadControl.Controller.TargetBreakerOpen` | gateway-server/internal/server/generic_download_control.go:247-266 | An expired breaker is closed and forgotten |
| `DownloadControl.Controller.SourceConstrained` | gateway-server/internal/server/generic_download_control.go:268-284 | An expired source constraint is lifted |
| `DownloadControl.Controller.ObserveTarget` | gateway-server/internal/server/generic_download_control.go:69-114 | The result of a target updates its failures and breaker |
| `DownloadControl.Controller.ObserveSource` | gateway-server/internal/server/generic_download_control.go:286-321 | A reading counts as slow, clears or lifts as the source says; what follows from that is stated by the rows of SourceConstraint |
| `TargetHistory.StandingIsExact` | gateway-server/internal/server/generic_download_control.go:69-528 | Over every run, the failures, breaker, slow readings and constraint of a target are exactly its history, told event by event: leases, releases, results, readings, queries and prunes |
| `TargetHistory.TargetTrips` | gateway-server/internal/server/generic_download_control.go:69-114 | After any run, a failure of a target opens its breaker exactly when it is severe or reaches the threshold together with the failures that still count |
| `TargetHistory.TargetAnswers` | gateway-server/internal/server/generic_download_control.go:323-333 | After any run the queries of a target say yes exactly while the breaker, or the constraint, that its history gives has not run out |
| `TargetHistory.QueryAnswers` | gateway-server/internal/server/generic_download_control.go:509-528 | The query of a transfer says yes exactly while its own breaker or that of its target has not run out |
| `TargetHistory.LeaseAnswers` | gateway-server/internal/server/generic_download_control.go:365-366 | A lease says that the breaker is open exactly if its own or that of its target is, and held back exactly if its target still is |
| `TargetHistory.SlowReadingOpens` | gateway-server/internal/server/generic_download_control.go:286-321 | After any run, a reading holds a target back exactly if it is slow and an earlier slow one has been cleared neither since nor by the prune that comes with it; what else it does to the constraint is stated too |
| `TargetHistory.RemembersRun` | gateway-server/internal/server/generic_download_control.go:205-321 | A slow reading is remembered exactly if none of the clearing steps followed it |
| `SourceConstraint.ReadingOpens` | gateway-server/internal/server/generic_download_control.go:286-321 | A reading holds a target back exactly when it is slow and a slow one is remembered |
| `SourceConstraint.OnlySecondOpens` | gateway-server/internal/server/generic_download_control.go:286-321 | Over every run, a target is held back only by a slow reading after another one, with no single-segment reading between |
| `SourceConstraint.SegmentForgetsReading` | gateway-server/internal/server/generic_download_control.go:205-266 | A run in which two slow readings hold a target back, and one in which a new segment of another download from it between them prevents that |
| `SourceConstraint.ConstraintHolds` | gateway-server/internal/server/generic_download_control.go:224-284 | A target held back stays so for 45 seconds through every run without a fast single-segment reading or a release under its own key |
| `SourceConstraint.ConstraintIsSeen` | gateway-server/internal/server/generic_download_control.go:268-284 | Meanwhile the query and every lease for the target say so |
| `DownloadControl.Controller.BreakerOpenForTarget` | gateway-server/internal/server/generic_download_control.go:496-507 | Query of a target breaker |
| `DownloadControl.Controller.BreakerOpen` | gateway-server/internal/server/generic_download_control.go:509-528 | Query of a transfer breaker, then of its target |
| `DownloadControl.Controller.SourceConstrainedForTarget` | gateway-server/internal/server/generic_download_control.go:323-333 | Query of a source constraint |
| `CatalogPlan.PlanChunks` | gateway-server/internal/server/gb28181_tunnel.go:1187-1244 | The planning loop produces the specified messages |
| `CatalogPlan.PlanAlone` | gateway-server/internal/server/gb28181_tunnel.go:1218-1236 | A device that overflows travels in compact form, else minimal, else not at all |
| `CatalogPlan.ShortForms` | gateway-server/internal/server/gb28181_tunnel.go:1218-1276 | A device that overflows goes with its trimmed name and its status, ON for none; if that is too large, with its identifier only; else not at all |
| `CatalogPlan.OneMessage` | gateway-server/internal/server/gb28181_tunnel.go:1187-1201 | Other transports, and the empty catalog, take a single message whatever its size |
| `CatalogPlan.ChunksFit` | gateway-server/internal/server/gb28181_tunnel.go:1202-1243 | Over UDP no planned message is empty or exceeds the limit |
| `CatalogPlan.IdsInOrder` | gateway-server/internal/server/gb28181_tunnel.go:1202-1243 | With monotone sizes the messages carry the device identifiers in order, without exactly those whose minimal form alone is too large |
| `CatalogPlan.PlanIds` | gateway-server/internal/server/gb28181_tunnel.go:1202-1243 | Whatever the sizes, the messages carry the identifiers of the kept devices in order |
| `CatalogPlan.LostOnlyIfTooLarge` | gateway-server/internal/server/gb28181_tunnel.go:1218-1236 | Whatever the sizes, a device is lost only if neither of its short forms can go |
| `CatalogPlan.AtMostTwiceTheFewest` | gateway-server/internal/server/gb28181_tunnel.go:1202-1243 | No way to cut the list into messages that fit has fewer than half as many messages as planned |
| `CatalogMerge.CompletesExactly` | gateway-server/internal/server/gb28181_tunnel.go:1278-1329 | Over every run of arrivals, in any order, repeated and mixed with other sources, a chunk completes the catalog exactly when all others arrived since it was last complete or lapsed; the report has each identifier once |
| `CatalogMerge.RunTracks` | gateway-server/internal/server/gb28181_tunnel.go:1278-1329 | The fragment of a source holds exactly the chunks that count |
| `CatalogMerge.CountDecides` | gateway-server/internal/server/gb28181_tunnel.go:1315-1319 | As many devices have arrived as announced exactly when all chunks have |
| `CatalogMerge.NeverCompletes` | gateway-server/internal/server/gb28181_tunnel.go:1278-1329 | A catalog whose chunks carry fewer devices than announced is never completed |
| `CatalogMerge.PlanIsPublished` | gateway-server/internal/server/gb28181_tunnel.go:1187-1244 | A plan that drops no device, with distinct identifiers, is a catalog the receiver can complete |
| `CatalogMerge.LossyPlanIsShort` | gateway-server/internal/server/gb28181_tunnel.go:1187-1244 | A plan that drops a device announces more devices than it carries |
| `CatalogMerge.GatherOrder` | gateway-server/internal/server/gb28181_tunnel.go:1305-1314 | Devices of a notification are listed behind those collected before, in order of first appearance |
| `CatalogMerge.GatherLatest` | gateway-server/internal/server/gb28181_tunnel.go:1305-1314 | A device that came again is listed with its last record |
| `CatalogMerge.NamelessIsPassed` | gateway-server/internal/server/gb28181_tunnel.go:1278-1282 | A notification without a source is passed on as it is and leaves no trace |
| `CatalogMerge.Merger.Merge` | gateway-server/internal/server/gb28181_tunnel.go:1278-1329 | The merging object collects, completes and forgets fragments as specified |
| `CatalogMerge.Merger.Expire` | gateway-server/internal/server/gb28181_tunnel.go:1289-1293 | The expiry loop removes exactly the lapsed fragments |
| `CatalogMerge.Merger.Collect` | gateway-server/internal/server/gb28181_tunnel.go:1305-1314 | The collecting loop records every identified device, first arrival first |
| `CatalogMerge.Merger.List` | gateway-server/internal/server/gb28181_tunnel.go:1320-1325 | The merged list follows the order of arrival |
| `CatalogRegistry.IndexesAreInverse` | gateway-server/internal/server/catalog_registry.go:60-135 | After any synchronisations with distinct ports the port and device indexes are exact inverses, with ascending lists without repetition |
| `CatalogRegistry.InverseIffDistinct` | gateway-server/internal/server/catalog_registry.go:204-216 | The indexes of a list of mappings are inverse exactly when no port occurs twice |
| `CatalogRegistry.PortIsBound` | gateway-server/internal/tunnelmapping/model.go:38-43 | Every port leads to the trimmed device identifier of its mapping, or to the mapping identifier where there is none |
| `CatalogRegistry.AnyOrder` | gateway-server/internal/server/catalog_registry.go:103-117 | In whatever order the devices are visited, the same ports are carried over |
| `CatalogRegistry.NothingIsDisplaced` | gateway-server/internal/server/catalog_registry.go:103-117 | A newly exposed port or device is untouched; a previous port stays exactly when it is free and its device has no new one |
| `CatalogRegistry.Canonical` | gateway-server/internal/server/catalog_registry.go:60-135 | The device index is determined by the port index |
| `CatalogRegistry.Registry.SyncExposure` | gateway-server/internal/server/catalog_registry.go:60-78 | Synchronisation with mappings replaces both indexes |
| `CatalogRegistry.Registry.SyncRemote` | gateway-server/internal/server/catalog_registry.go:80-135 | Synchronisation with a remote catalog carries ports over, visiting devices in some order |
| `CatalogRegistry.Bindings` | gateway-server/internal/server/catalog_registry.go:204-216 | The binding loops fill and sort the indexes |
| `CatalogRegistry.CarryDevice` | gateway-server/internal/server/catalog_registry.go:103-117 | The carry-over loop of one device |
| `CleanupSchedule.Search` | gateway-server/internal/server/cleanup_schedule.go:46-53 | The search returns the earliest matching minute strictly after now, at most 1440 minutes away, or none exactly when no hour and minute match |
| `CleanupSchedule.NextDelay` | gateway-server/internal/server/cleanup_schedule.go:24-54 | Every expression gives its interval, its next time or the right error |
| `CleanupSchedule.SegmentIsMeant` | gateway-server/internal/server/cleanup_schedule.go:65-109 | Every written segment matches exactly the values it means |
| `CleanupSchedule.FieldIsMeant` | gateway-server/internal/server/cleanup_schedule.go:56-63 | A written list of segments matches exactly the values that one of them means |
| `CleanupSchedule.EmptyMatchesNothing` | gateway-server/internal/server/cleanup_schedule.go:65-68 | An empty segment, as between two commas, matches nothing |
| `CleanupSchedule.AtoiReads` | gateway-server/internal/server/cleanup_schedule.go:76-107 | A number is read with either sign or none, exactly within 64 bits |
| `CleanupSchedule.AtoiOnly` | gateway-server/internal/server/cleanup_schedule.go:76-107 | Nothing but an optional sign and digits is read as a number |
| `CleanupSchedule.ScheduleFields` | gateway-server/internal/server/cleanup_schedule.go:39-45 | A schedule of two words and three stars has these five fields |
| `Text.FieldsOf` | gateway-server/internal/server/cleanup_schedule.go:39-40 | Whatever spaces stand between words, before and behind them, the fields of a text are the words |
| `Text.TrimIs` | gateway-server/internal/server/gb28181_transport_helpers.go:396-400 | Trimming takes away spaces at both ends and nothing else |
| `Text.SpacesAre` | gateway-server/internal/server/gb28181_transport_helpers.go:396-400 | The spaces are tab, line feed, vertical tab, form feed, carriage return and the space itself |
| `Text.LowerIs` | gateway-server/internal/server/gb28181_transport_helpers.go:405 | Texts have one lower case form exactly if they differ in letter case only |
| `CookieCompaction.CompactHeader` | gateway-server/internal/server/gb28181_transport_helpers.go:388-434 | The compaction loops compute the specified header |
| `CookieCompaction.CompactFits` | gateway-server/internal/server/gb28181_transport_helpers.go:388-434 | The result fits the limit |
| `CookieCompaction.NothingElseFits` | gateway-server/internal/server/gb28181_transport_helpers.go:417-430 | No candidate left out could be added |
| `CookieCompaction.FirstIsCandidate` | gateway-server/internal/server/gb28181_transport_helpers.go:396-415 | The first cookie of every name is a candidate, whatever follows it |
| `CookieCompaction.NamesAgree` | gateway-server/internal/server/gb28181_transport_helpers.go:400-409 | Two cookies count as one exactly if their names differ in letter case only |
| `CookieCompaction.ImportantIs` | gateway-server/internal/server/gb28181_transport_helpers.go:436-461 | A cookie is important exactly if one of the words for sessions and logins stands in its name, whatever the letter case |
| `CookieCompaction.KeptFacts` | gateway-server/internal/server/gb28181_transport_helpers.go:388-434 | What is kept are trimmed parts of the header, each name once regardless of case, important ones first |
| `CookieCompaction.CompactTwice` | gateway-server/internal/server/gb28181_transport_helpers.go:388-434 | Compacting the result at the same limit changes nothing |
| `DownloadControl.Controller.RateOfTransfer` | gateway-server/internal/server/generic_download_control.go:365-392 | Share, floor and breaker give the specified transfer rate |
| `DownloadControl.Controller.RateOfSegment` | gateway-server/internal/server/generic_download_control.go:393-403 | The optional split gives the specified segment rate |
| `DownloadControl.Controller.Conclude` | gateway-server/internal/server/generic_download_control.go:464-494 | The outcome of a segment counts or clears failures, opens the breaker, or removes the entry |
| `CookieCompaction.Collect` | gateway-server/internal/server/gb28181_transport_helpers.go:396-415 | The first loop collects the first cookie of every name, important and others apart |
| `CookieCompaction.Fill` | gateway-server/internal/server/gb28181_transport_helpers.go:417-429 | The second loop keeps every item that still fits |

## Left out

- Sockets, deadlines, pacing, port pools, logging and statistics; clock readings, durations and loader results are parameters.
- Gap handling of the receiver beyond the reorder window: fast-forwarding over lost packets, rescue of range playback, growing the tolerance, switching of synchronisation sources.
- MediaTunnel.TunnelIsTransparent: the first packet to arrive is the first one sent and packets stay within the reorder window, since the buffer starts at whatever arrives first and gives up beyond the window.
- Fec.ParityTracker.ObserveData: what was sent is a map from 16-bit numbers, that is, one cycle of sequence numbers; ParityRuns moves that map along a longer stream.
- Fec.ParityTracker.ObserveFec: the hash that names a group is an arbitrary number, so groups may collide; which of two colliding groups survives is as in the code, and that group is still genuine. MediaRepair names groups by their runs, without collisions; for the bodies sent that leaves out a collision of two open runs under one hash.
- MediaRepair.RepairingReceiver.Receive: the first packet to arrive is the first data packet sent, and no run is longer than the tracker's memory. In a stream of more than 32768 packets every arrival lies less than 32512 packets from the first missing one, and twice the memory and the window together stay below that, since 16-bit numbers tell no more apart; a shorter stream needs neither (MediaRepair.ShortIsClose). Gap skipping and timeouts are not modelled.
- LossyTunnel.ReceiveBody: the same conditions.
- PsCodec.StaticStreamReturnsOnlyNothing: says nothing of bodies above 60000 bytes with a start code inside their first 60000 bytes; the decoder then takes part of the body for a packet, and whether such bytes can happen to decode to the whole body is open. The gateway builds static streams for the empty body only.
- SegmentCache.Cache.Get: the recency list is a sequence of keys, without list-node pointers, and data are values, without sharing of byte slices.
- A loader that panics or never returns; SingleFlight.NobodyIsStuck counts the loader's return as a step that can happen.
- DownloadControl.Controller.Acquire: keys are triples of normalised names, where the code joins them with a vertical bar; the names, last-touch times and observed rates kept only for reporting are not modelled, and the clock readings after the first one of an operation are taken as one.
- DownloadControl.Controller.Release: whether an error is benign or severe is given, not read from its text.
- DownloadBreaker.BreakerHolds: excludes releases under the target's own key, which belong to downloads without device and transfer name; such a release may delete the entry. SourceConstraint.ConstraintHolds excludes them too.
- Integer overflow in rates and counters; tuning that changes during a run.
- CatalogPlan.PlanChunks: SIP and XML writing is a size function that may refuse a list; CatalogPlan.IdsInOrder assumes that it grows with its list and that a minimal record is never larger than another form. Sequence numbers that grow between planning and sending may make a real message larger than planned.
- CatalogMerge.CompletesExactly: one version of the catalog is in flight per source; two versions with equal totals would mix.
- CatalogRegistry.AnyOrder: requires that the previous indexes were inverse; after mappings with one port twice, which port is carried over depends on the order.
- The resource records of the registry beside its indexes.
- CleanupSchedule.NextDelay: durations after `@every` are read by a given function.
- Letters and spaces beyond ASCII in trimming and case folding.
- The failure and recovery counters of adaptive delivery, UDP lanes, the access-log summary, configuration, HTTP handlers, licences, digest authentication and storage: single-branch facts, foreign code or input and output.
