# The embedded JRTPLIB, modelled and proved in Dafny

`Monal/jrtplib` implements RTP and RTCP (RFC 3550). This project models its stateful core and proves what it
keeps over whole runs. `dafny verify dfyconfig.toml` checks everything.

Objects that the library changes in place are classes here, with the library's fields. Each class is proved
against a specification on values, and what the library promises is proved about that specification.

- **RTCP compound packets** - `RtcpFormat`, `RtcpCompound`, `RtcpSdes`: the bytes of the five packet types, the
  parser, and the SDES cursor. `RtcpBuild`, `RtcpBuildRuns`: the builder as a state machine, its size
  predictions, and runs of calls. `RtcpSdesSource`, `RtcpWriter`, `RtcpBuilder`: the builder object and the
  writer of `EndBuild`. `PacketRound`, `PacketRoundRuns`, `RtcpPacketBuilder`: what goes into the next packet.
  `RoundTurns`: which items go out in which round. `ReportSelection`, `ReportWitness`: which sources it reports on.
- **RTP data packets** - `RtpPacket`, `RtpPadding`, `RtpDataPacket`, `PacketSender`.
- **Receive state of a source** - `SourceStats`, `SourceStatsRuns`, `SourceData`, `LossReport`, and `ReportExact`,
  what the reports say of it.
- **Source table** - `KeyHashTable`, `SourceIndex`: the intrusive two-list hash table, and the list that it keeps.
  `SourceTable`, `SourceTableRuns`, `SourceTableHistory`: the table, its counters, timeouts, collisions and
  addresses. `SourceLives`, `SourceAddresses`, `SourceNotices`: what is known of every source at every moment, told
  from what arrived. `CompoundActions`, `CompoundLives`, `TimerCalls`: what a compound packet tells the table, and
  what the table tells the timer. `Sources`: the table object.
- **Transmission timer** - `Scheduler`, `SchedulerRuns`, `SchedulerIntervals`, and `RtcpTimer`, the timer object.
- **Session** - `SessionStep`: one call as a function of the session. `SessionRuns`, `SessionCounts`,
  `SessionSpacing`: runs of calls, the counts that the timer is told in them, and its distances. `SessionWitness`,
  `MissedScene`, `SpacingWitness`: runs in which something goes wrong. `SessionTimeouts`: what a call asks of the
  timer, removes and reports. `Session`: the session object over the objects above.

Where an obvious claim is false of the code, the exact condition is proved, and a lemma gives an input on which
the claim fails:

- Opening the first SDES chunk is predicted to cost nothing and costs 12 bytes, and the room for a report header
  is an unsigned difference; a compound packet can exceed its maximum by up to 40 bytes
  (`RtcpBuildRuns.SizeBoundExact`, `SizeBoundAlways`; input: `BoundIsTight`).
- An RTCP packet longer than its 16-bit length field does not parse back (`RtcpBuildRuns.RunRoundTrip`; input:
  `LongRunIsLost`); an RTP payload of 2^31 bytes or more does not either (`RtpPacket.RoundTrip`; input:
  `LongPayloadLost`).
- A packet that is late across a sequence wrap is numbered a cycle ahead (`SourceStatsRuns.NumberExact`; input:
  `LateAcrossWrap`).
- Marking a known, not yet active entry as a contributing source does not count it; the active counter can
  become negative (`SourceTableHistory.StepGap`; input: `ActiveCountNegative`).
- Reverse reconsideration with negative counts moves the time of the last packet back, against section 6.3.4 of
  RFC 3550, which presumes counts of members (`SchedulerRuns.ReverseReconsideration`; input:
  `NegativeCountsMoveBack`); in a session the timer keeps its distances if at most two contributing sources are
  missed at a time (`SessionSpacing.SessionSpaced`), and not with three (input: `SpacingWitness.ThreeMissedTooSoon`).
- The loss fraction is undefined for an interval without packets (`LossReport.FractionExact`), and a packet can come
  to such an interval (`ReportSelection.SecondWalkExact`; input: `ReportWitness.ReportedTwice`).
- A timestamp step of 2^28 or more is taken with the wrong sign unless it wraps (`SourceStats.TimestampStepExact`;
  input: `TimestampStepWrong`).
- A failed transmission of a goodbye leaves the ones behind it unscheduled (`SessionRuns.SessionInvariant`,
  `AgreementExact`; input: `SessionWitness.FailedSendStrands`).
- An SDES item of an unknown type makes the processing of the whole compound packet stop with an error, and
  `ProcessPolledData` with it (`CompoundActions.CompoundErrors`; input: `UnknownItemStops`).

## Model

| member | source | states |
|---|---|---|
| RtcpFormat.PacketRoundTrip | Monal/jrtplib/rtcpcompoundpacketbuilder.cpp:577-810 | Every SR, RR, SDES, BYE and APP packet that the builder can write is accepted by its packet class and read back with the same SSRCs, sender info, report blocks, chunks, items, reason, name and data; loss counts come back modulo 24 bits |
| RtcpFormat.CanonicalIsIdentityExactlyInRange | Monal/jrtplib/rtcprrpacket.hh:159-169 | A report block survives the 24-bit signed loss field unchanged if and only if its loss count is in [-2^23, 2^23) |
| RtcpFormat.LostRoundTrip | Monal/jrtplib/rtcpsrpacket.hh:205-215 | The three loss bytes written for any 32-bit count decode to that count sign-wrapped to 24 bits |
| RtcpFormat.BlockByIndex | Monal/jrtplib/rtcprrpacket.hh:137-141 | Report block i, as the indexed accessors address it, is the i-th block of the list that was written |
| RtcpCompound.ParseData | Monal/jrtplib/rtcpcompoundpacket.cpp:105-198 | The loop accepts exactly the byte strings that the recursive reading accepts, and yields the same packet list; it terminates on every input |
| RtcpCompound.CompoundRoundTrip | Monal/jrtplib/rtcpcompoundpacket.cpp:105-198 | For every compound packet led by a report, parsing the written bytes gives the builder's packet list (type, offset, length) if and only if every packet's length fits its 16-bit field, and every entry reads back the packet that was put in |
| RtcpCompound.AcceptedPacketsTile | Monal/jrtplib/rtcpcompoundpacket.cpp:128-185 | In every accepted compound packet the entries cover the bytes without gap or overlap, in whole words, and the first is a report |
| RtcpCompound.ParseExact | Monal/jrtplib/rtcpcompoundpacket.cpp:105-198 | The parser accepts a byte string with a packet list if and only if the list covers the bytes in whole words with packets of version 2, of the stated types and lengths, with padding at most in the last, and the first is a report |
| RtcpSdes.Validate | Monal/jrtplib/rtcpsdespacket.cpp:44-145 | The nested loops terminate on every input with a header, and accept exactly the packets whose unpadded bytes are the announced number of complete chunks |
| RtcpSdes.Collect | Monal/jrtplib/rtcpsdespacket.hh:162-244 | Walking the chunk and item cursor over any accepted packet visits exactly the chunks and items that the check walked over, once and in order; over a packet of unknown format, nothing |
| RtcpSdes.SdesPacket.GotoNextItem | Monal/jrtplib/rtcpsdespacket.hh:225-244 | The cursor moves to the next item of the current chunk, or stays and says there is none; every read is inside the unpadded packet |
| RtcpSdes.SdesPacket.GotoNextChunk | Monal/jrtplib/rtcpsdespacket.hh:175-200 | The cursor moves over the items and padding of a chunk to the next one, or stays and says there is none |
| RtcpBuild.ReportSizeExact | Monal/jrtplib/rtcpcompoundpacketbuilder.hh:174-196 | The predicted size of the report part is the size written, for any number of blocks over any number of packets |
| RtcpBuild.SdesSizeExact | Monal/jrtplib/rtcpcompoundpacketbuilder.hh:305-323 | The predicted size of the SDES part is the size written, including every chunk's padding and the split into packets of 31 chunks |
| RtcpBuild.SizeExact | Monal/jrtplib/rtcpcompoundpacketbuilder.cpp:577-588 | The bytes of the whole compound packet number exactly the sum of the four counters that EndBuild allocates |
| RtcpBuildRuns.ExtraItemExact | Monal/jrtplib/rtcpcompoundpacketbuilder.hh:325-344 | The size predicted for one more item is the size after adding it |
| RtcpBuildRuns.ExtraSourceExact | Monal/jrtplib/rtcpcompoundpacketbuilder.hh:346-368 | The size predicted for one more source is the size after adding it, except for the first source, predicted as 0 while it costs 12 |
| RtcpBuildRuns.SizeBoundExact | Monal/jrtplib/rtcpcompoundpacketbuilder.cpp:154-281 | Over every run of calls the contents stay within the maximum if and only if 12 bytes are free whenever the first SDES source is opened |
| RtcpBuildRuns.SizeBoundAlways | Monal/jrtplib/rtcpcompoundpacketbuilder.cpp:154-281 | Over every run, without assumptions, the excess is at most 40 bytes |
| RtcpBuildRuns.BoundIsTight | Monal/jrtplib/rtcpcompoundpacketbuilder.cpp:154-190 | A run of three accepted calls with maximum 600 collects 640 bytes |
| RtcpBuildRuns.RunRoundTrip | Monal/jrtplib/rtcpcompoundpacketbuilder.cpp:567-810 | After any sequence of calls that started a report, the parser accepts EndBuild's bytes with EndBuild's packet list if and only if every packet fits its length field, always so for maxima up to 262104, and each packet reads back what the calls put in |
| RtcpBuildRuns.LongRunIsLost | Monal/jrtplib/rtcpcompoundpacketbuilder.cpp:283-346 | A run of accepted calls, with 1025 items of 255 bytes in one chunk, whose bytes do not parse back |
| RtcpBuildRuns.SplitKeepsEverything | Monal/jrtplib/rtcpcompoundpacketbuilder.cpp:595-760 | Over the 31-way splits no report block, chunk, APP or BYE packet is lost, repeated or reordered |
| RtcpBuildRuns.PrivateRoundTrip | Monal/jrtplib/rtcpcompoundpacketbuilder.cpp:349-393 | A private item is taken apart into the prefix and value it was built from |
| RtcpBuildRuns.ItemTypeRoundTrip | Monal/jrtplib/rtcpsdespacket.hh:246-277 | The builder accepts exactly the seven normal item types, and each identifier it writes is read as its type |
| RtcpBuilder.CompoundPacketBuilder.AddReportBlock | Monal/jrtplib/rtcpcompoundpacketbuilder.cpp:221-259 | State and status after the call are those of the state machine on the collected contents, and the buffers still hold exactly those contents |
| RtcpBuilder.CompoundPacketBuilder.AddSDESSource | Monal/jrtplib/rtcpcompoundpacketbuilder.cpp:261-281 | As for AddReportBlock, for a new SDES chunk |
| RtcpBuilder.CompoundPacketBuilder.AddSDESNormalItem | Monal/jrtplib/rtcpcompoundpacketbuilder.cpp:283-346 | As for AddReportBlock, for an item of the last chunk; every refusal in the order of the code's checks |
| RtcpBuilder.CompoundPacketBuilder.AddBYEPacket | Monal/jrtplib/rtcpcompoundpacketbuilder.cpp:395-465 | As for AddReportBlock, for a BYE packet, which is formed at once |
| RtcpBuilder.CompoundPacketBuilder.AddAPPPacket | Monal/jrtplib/rtcpcompoundpacketbuilder.cpp:467-521 | As for AddReportBlock, for an APP packet, which is formed at once |
| RtcpBuilder.CompoundPacketBuilder.EndBuild | Monal/jrtplib/rtcpcompoundpacketbuilder.cpp:567-810 | The written buffer is the image of the collected contents, of exactly the predicted size, with the packet list pointing at where each packet was put |
| KeyHashTable.Table.AddElement | Monal/jrtplib/rtpkeyhashtable.hh:254-302 | The element is appended to the contents exactly if its index is valid and its key is new; both kinds of lists stay intact and agree |
| KeyHashTable.Table.DeleteCurrentElement | Monal/jrtplib/rtpkeyhashtable.hh:118-171 | Exactly the current element leaves both of its lists, and the cursor moves to the one after it |
| KeyHashTable.Table.GotoElement | Monal/jrtplib/rtpkeyhashtable.hh:174-195 | The search down one bucket finds the element if and only if its key is in the table |
| KeyHashTable.Table.DeleteElement | Monal/jrtplib/rtpkeyhashtable.hh:305-314 | The element with the key leaves the table exactly if there is one |
| KeyHashTable.Table.Clear | Monal/jrtplib/rtpkeyhashtable.hh:235-251 | All buckets and the list are empty, and the table is intact |
| KeyHashTable.BucketAndListAgree | Monal/jrtplib/rtpkeyhashtable.hh:174-218 | In every intact table a key is reachable through its bucket if and only if it is on the global list, exactly once on each |
| KeyHashTable.Sweep | Monal/jrtplib/rtpsources.cpp:892-921 | A walk that deletes some elements under the cursor visits every element once in order of insertion, and leaves exactly the others, in their order |
| KeyHashTable.IndexRemove | Monal/jrtplib/rtpkeyhashtable.hh:118-171 | Unlinking a node from its bucket keeps buckets and list in agreement |
| SourceIndex.SourceList.FindEntry | Monal/jrtplib/rtpsources.cpp:798-827 | The search down one bucket finds the very entry that the first-match search of the source table's specification finds |
| SourceIndex.SourceList.AddEntry | Monal/jrtplib/rtpsources.cpp:798-827 | A new entry is added to the hash table as the last of the list that the source table is specified on |
| SourceIndex.SourceList.DeleteCurrent | Monal/jrtplib/rtpsources.cpp:892-921 | The entry at the cursor's position leaves that list, and the cursor is at the same position of what is left |
| SourceStats.RtpSourceStats.ProcessPacket | Monal/jrtplib/rtpsourcedata.cpp:78-253 | Numbers, counters, jitter, times and verdict are those of the specification, in which a later packet opens a new cycle exactly if it is more than 2^15 below the highest |
| SourceStats.TimestampStepExact | Monal/jrtplib/rtpsourcedata.cpp:207-238 | The timestamp distance is the true one if and only if it is below 2^28 in size or crosses a wrap-around |
| SourceStatsRuns.JitterOverRun | Monal/jrtplib/rtpsourcedata.cpp:240-246 | Over every run the jitter estimate stays between zero and the largest deviation of a packet, and the integer is the estimate cut down |
| SourceStatsRuns.JitterConverges | Monal/jrtplib/rtpsourcedata.cpp:240-246 | If every packet after the first deviates by the same amount, the distance of the estimate to it is that amount times (15/16)^n after n more packets |
| SourceStatsRuns.NumberExact | Monal/jrtplib/rtpsourcedata.cpp:162-179 | A packet gets its true number if and only if it is in the highest number's cycle and at most 2^15 behind, or in the next cycle and less than 2^15 ahead |
| SourceStatsRuns.NumbersExact | Monal/jrtplib/rtpsourcedata.cpp:144-179 | All packets of a run get their true numbers if and only if the first is aligned and every later one is in step with the highest before it |
| SourceStatsRuns.SequenceExtension | Monal/jrtplib/rtpsourcedata.cpp:48-73 | Over every run in step, with probation and however it is cut into intervals, every assigned number is the true one, the highest number is the maximum and the cycle count its upper part, modulo 2^32 |
| SourceStatsRuns.LateAcrossWrap | Monal/jrtplib/rtpsourcedata.cpp:152-157 | A packet that comes late across a wrap is numbered a cycle ahead and becomes the highest |
| SourceStatsRuns.ProbationExact | Monal/jrtplib/rtpsourcedata.cpp:89-134 | A source is accepted at the first packet that is the third of three consecutive ones, and not before |
| SourceStatsRuns.IntervalsAddUp | Monal/jrtplib/rtpsourcedata.hh:117 | However a run is cut, the intervals' expected counts sum to highest minus base, and their received counts to the packets received, modulo 2^32 |
| SourceStatsRuns.CumulativeLoss | Monal/jrtplib/rtcppacketbuilder.cpp:382-386 | Over every run in step, highest minus base minus received is, modulo 2^32, the numbers from the first to the highest less the packets; without duplicates or packets from before the first that is the number of sequence numbers that never came |
| LossReport.FractionExact | Monal/jrtplib/rtcppacketbuilder.cpp:369-380 | The fraction field is the loss in 256ths cut down, and is undefined (0/0, or 256 in eight bits) if and only if the interval had no packets |
| ReportSelection.FillInReportBlocks | Monal/jrtplib/rtcppacketbuilder.cpp:322-502 | The walk over the sources reports on those that have sent since the last packet and are not marked yet, in their order, until the limit or the end of the room; it marks exactly those and begins a new interval for them, counts those passed over, and says whether any is left |
| ReportSelection.FillAddsBlocks | Monal/jrtplib/rtcppacketbuilder.cpp:322-502 | The walk adds to the packet exactly what adding the blocks of the available sources one after the other adds |
| ReportSelection.TakenLeavesRest | Monal/jrtplib/rtcppacketbuilder.cpp:361-437 | What a walk has not reported on is left to the next one, in the same order and with the same blocks: none is skipped and none comes twice until the flags are cleared |
| ReportSelection.WalksBuildNext | Monal/jrtplib/rtcppacketbuilder.cpp:176-254 | Outside a round, a walk, the items, the clearing of the flags and the second walk give the very packet of the packet builder |
| ReportSelection.SecondWalkExact | Monal/jrtplib/rtcppacketbuilder.cpp:195-253 | The second walk of a packet tries exactly as many sources as the first one passed over, while there is room for the blocks of those before; it comes to a source without a packet in its interval, and divides 0 by 0, if and only if one of these was reported on by the first walk, or had no packet before |
| ReportSelection.FirstWalkDefined | Monal/jrtplib/rtcppacketbuilder.cpp:336-380 | Over every life of a source with times in order, in whatever packets it was reported on: a source that the first walk of a packet wants has a packet in its interval, so that only a second walk divides 0 by 0 |
| ReportWitness.ReportedTwice | Monal/jrtplib/rtcppacketbuilder.cpp:195-253 | From the first packet of a builder on: a run in which the second packet reports on a source, clears the flags and reports on it again, over an interval without packets |
| LossReport.LossIsRead | Monal/jrtplib/rtcppacketbuilder.cpp:382-386 | From the packets received to the accessor at the other end: the loss read from the report block is the number of missing sequence numbers, below 2^23 |
| ReportExact.WalkSays | Monal/jrtplib/rtcppacketbuilder.cpp:361-437 | Every block that a walk adds, read from the bytes of the packet with the 24-bit loss field, for a source whose packets are in step, with any cuts: its SSRC; the highest true number modulo 2^32; as loss since the first packet the numbers that never came; as fraction that of the packets since the last report, in 256ths; the jitter; and LSR and DLSR in their own fields |
| ReportExact.ReportCuts | Monal/jrtplib/rtcppacketbuilder.cpp:434-435 | A report on a source begins the next interval: the packets of the next fraction are those from then on |
| SourceData.RtpSourceData.ProcessRTPPacket | Monal/jrtplib/rtpinternalsourcedata.cpp:56-175 | Statistics, queue and verdict are those of the specification; an accepted packet validates the source, and an admitted one makes it a sender exactly if it is or becomes valid and is not the own one; the queue invariant is kept |
| SourceData.ReceivedKeepsQueue | Monal/jrtplib/rtpinternalsourcedata.cpp:111-175 | The queue stays strictly ascending, and at most 32 long until validation; an admitted packet is stored once unless its number is there; only from a full queue on probation is a packet lost, and it is the one with the lowest number |
| SourceData.InsertKeeps | Monal/jrtplib/rtpinternalsourcedata.cpp:133-172 | Insertion keeps the order and changes the contents by exactly the packet, or by nothing if its number is there |
| SourceData.RtpSourceData.InsertPacket | Monal/jrtplib/rtpinternalsourcedata.cpp:133-172 | The walk from the back of the queue finds the place that the specification gives |
| SourceData.RtpSourceData.ProcessSDESItem | Monal/jrtplib/rtpinternalsourcedata.cpp:177-249 | Items, validation, note time, CNAME conflict and error are those of the specification |
| SourceData.NamesNeverChange | Monal/jrtplib/rtpinternalsourcedata.cpp:189-238 | CNAME, name, e-mail and tool never change once set, whatever items follow |
| SourceData.ItemExact | Monal/jrtplib/rtpinternalsourcedata.cpp:177-249 | After any items: CNAME, name, e-mail and tool are the first text of that kind that is not empty nor longer than 255 bytes, phone, location and note the last that is not longer |
| SourceData.RtpSourceData.GetNextPacket | Monal/jrtplib/rtpsourcedata.hh:454-466 | The first packet of the queue leaves it exactly if the source is validated |
| Sources.RtpSources.ProcessRTPPacket | Monal/jrtplib/rtpsources.cpp:289-360 | Table, counters, callbacks and verdict are those of the specification; all invariants of the table are kept |
| Sources.RtpSources.CheckCollision | Monal/jrtplib/rtpsources.cpp:1331-1415 | The nested checks report a collision if and only if taking over the address would change a known one, or leave the source with two addresses that are not both local or on one host; otherwise the address is taken over |
| SourceTableRuns.CollisionExact | Monal/jrtplib/rtpsources.cpp:1331-1415 | The same of the specification, for every entry whose addresses fit |
| SourceAddresses.HomeExact | Monal/jrtplib/rtpsources.cpp:1370-1413 | Over every run, whoever else sends: a source whose data packets come from one address and whose control packets come from one address on the same host is never reported as a collision, and has no other addresses |
| SourceAddresses.BothBound | Monal/jrtplib/rtpsources.cpp:1370-1413 | Such a source has its first address from its first data packet on, and its second from its first report on, as long as its entry stays |
| Sources.RtpSources.ProcessSDESNormalItem | Monal/jrtplib/rtpsources.cpp:689-743 | As for ProcessRTPPacket, for an SDES item, with the error for an unknown type |
| Sources.RtpSources.ProcessBYE | Monal/jrtplib/rtpsources.cpp:768-796 | As for ProcessRTPPacket, for a BYE, which the own entry ignores; the timer object is told the active count exactly if the BYE is taken up |
| Sources.RtpSources.UpdateReceiveTime | Monal/jrtplib/rtpsources.cpp:859-879 | As for ProcessRTPPacket, for a mere sign of life: the source is in the table afterwards and was last heard at this time, unless the address clashes, and then no entry changes |
| SourceLives.LifeExact | Monal/jrtplib/rtpsources.cpp:289-1261 | At every event of every run from an empty table: which sources have an entry, and for each when it was last heard, last sent data, said goodbye and was noted, its CNAME and note, whether it is a sender and valid, its addresses and its statistics follow from what was known before and from the event, as told from the event |
| SourceLives.TimeoutExact | Monal/jrtplib/rtpsources.cpp:881-1071 | A timeout pass at any moment of any run removes a remote source if and only if its last sign of life (data packet, report, item, goodbye, without a collision) since its entry was made is more than the delay ago, or, for the BYE pass, its last goodbye is, with the 32-bit wrap of the clock; the own entry stays |
| SourceLives.SignsKeep | Monal/jrtplib/rtpsources.cpp:859-879 | With a clock that does not wrap: a source that gave a sign of life within the delay stays |
| SourceLives.SilenceRemoves | Monal/jrtplib/rtpsources.cpp:881-943 | And one that gave none within the delay goes |
| SourceLives.SenderExact | Monal/jrtplib/rtpsources.cpp:945-998 | At every moment of every run, an entry is a sender if and only if a data packet was counted for it while it was or became valid, or the own one was sent, and no pass since found its last one more than the delay ago |
| SourceLives.SendersExact | Monal/jrtplib/rtpsources.cpp:945-998 | The sender count of every moment is the number of these sources |
| SourceLives.SendersAreValid | Monal/jrtplib/rtpinternalsourcedata.cpp:108-109 | In every reachable state only valid sources are senders |
| SourceLives.ValidExact | Monal/jrtplib/rtpinternalsourcedata.cpp:68-106 | At every moment, an entry is valid if and only if since it was made a data packet was counted, a CNAME came, a valid source listed it as contributing, or it is the own one |
| SourceLives.NoteExact | Monal/jrtplib/rtpsources.cpp:1073-1130 | A pass clears the note if and only if the last note came more than the delay ago |
| SourceLives.StatsExact | Monal/jrtplib/rtpinternalsourcedata.cpp:56-82 | At every moment the receive statistics of an entry are those of the run of its data packets since it was made, so that what is proved of such runs holds of the table |
| SourceNotices.NoticesExact | Monal/jrtplib/rtpsources.cpp:798-921 | Over every run in which the table is not cleared, every entry was announced exactly once more than its end was, and of sources without an entry exactly as often |
| Sources.RtpSources.ProcessRTCPCompoundPacket | Monal/jrtplib/rtpsources.cpp:362-529 | The nested loops over packets, blocks, chunks and items do exactly the sequence of actions of the specification, up to the first error; the timer counts the packet first, as a goodbye if any part has the type of a BYE, and is told of every BYE that is taken up |
| CompoundActions.CompoundKeepsOthers | Monal/jrtplib/rtpsources.cpp:362-529 | A compound packet changes and makes no entries but those of the senders, chunks and leavers that it names, and removes none |
| CompoundActions.CompoundErrors | Monal/jrtplib/rtpsources.cpp:362-529 | Whatever bytes arrive as a compound packet: processing ends without an error if and only if no description item of a known packet has a type above PRIV |
| CompoundLives.CompoundHeard | Monal/jrtplib/rtpsources.cpp:362-529 | After a compound packet without an error, for every source: it was heard now if and only if a report is its own, a chunk or a BYE names it, and the address is no collision; it is gone then if a BYE names it; it has an entry if it had one or was heard; and nothing of this changes for others |
| CompoundLives.ItemsForwarded | Monal/jrtplib/rtpsources.cpp:449-491 | Of each source the table is told exactly the items of its chunks, in their order, but for the private ones |
| CompoundActions.UnknownItemStops | Monal/jrtplib/rtpsources.cpp:699-724 | The bytes of a receiver report and an SDES packet with an item of type 9 arrive as a compound packet, and their processing ends with an error |
| CompoundActions.WrittenIsHeard | Monal/jrtplib/rtpsources.cpp:362-529 | The bytes that a builder writes arrive as the packets that it wrote |
| TimerCalls.FusedLeavings | Monal/jrtplib/rtpsources.cpp:1221-1236 | In the fused pass, the active count that the timer is told last is the old one less exactly the active entries that were dropped |
| Sources.RtpSources.CreateOwnSSRC | Monal/jrtplib/rtpsources.cpp:96-121 | The own entry is made exactly if there is none and its SSRC is free; it is valid, counted and has local addresses |
| Sources.RtpSources.DeleteOwnSSRC | Monal/jrtplib/rtpsources.cpp:123-144 | Exactly the own entry leaves the table, and the counters follow |
| Sources.RtpSources.SentRTPPacket | Monal/jrtplib/rtpsources.cpp:146-156 | The own entry becomes a sender, counted once |
| Sources.RtpSources.BYETimeout | Monal/jrtplib/rtpsources.cpp:1000-1071 | The pass drops exactly the entries whose BYE is too old, never the own one, and counts what is left |
| Sources.RtpSources.Timeout | Monal/jrtplib/rtpsources.cpp:881-943 | The pass drops exactly the entries not heard from for too long, never the own one, tells the timer of each, and counts what is left |
| Sources.RtpSources.SenderTimeout | Monal/jrtplib/rtpsources.cpp:945-998 | The pass clears exactly the sender flags that are too old, and counts what is left |
| Sources.RtpSources.NoteTimeout | Monal/jrtplib/rtpsources.cpp:1073-1130 | The pass clears exactly the notes that are too old, and counts what is left |
| Sources.RtpSources.MultipleTimeouts | Monal/jrtplib/rtpsources.cpp:1132-1261 | The fused loop treats every entry as the specification of the fused pass does, and tells the timer object the running active count at every timeout |
| SourceTableRuns.FusedIsSeparate | Monal/jrtplib/rtpsources.cpp:1132-1261 | The fused pass leaves the same table, flags, notes and counters as the BYE, general, sender and note passes one after the other, and makes the same multiset of callbacks |
| SourceTableRuns.StepSound | Monal/jrtplib/rtpsources.cpp:96-1261 | Every operation keeps: SSRCs unique, own entry present and local, queues ordered and bounded, totals and senders exact, active count at most the number of active entries; every timeout pass makes it exact |
| SourceTableRuns.SweepSound | Monal/jrtplib/rtpsources.cpp:1132-1261 | No pass removes the own entry |
| SourceTableHistory.StepGap | Monal/jrtplib/rtpsources.cpp:340-356 | The active counter falls behind by exactly the contributing sources that were known but not active, and by nothing else; a pass closes the gap |
| SourceTableHistory.Counters | Monal/jrtplib/rtpsources.cpp:289-360 | In every reachable state the totals are exact and the active counter is short by exactly what it missed since the last pass |
| SourceTableHistory.ActiveCountNegative | Monal/jrtplib/rtpsources.cpp:350-354 | A run of four packets after which the active counter is -1 |
| SourceTableHistory.AddressesBound | Monal/jrtplib/rtpinternalsourcedata.hh:84-130 | Over every run in which an entry stays, its addresses, CNAME, name, e-mail and tool never change once set, and two known addresses are both local or on the same host |
| SourceTableHistory.RtpCollisionsHarmless | Monal/jrtplib/rtpsources.cpp:305-313 | A data packet leaves every entry that its address collides with, contributing sources included, exactly as it was, and reports collisions only for such entries |
| SourceTableHistory.RtcpCollisionsHarmless | Monal/jrtplib/rtpsources.cpp:830-857 | The same for control packets |
| RtcpTimer.RtcpScheduler.IsTime | Monal/jrtplib/rtcpscheduler.cpp:181-236 | The timer fires if and only if the scheduled time and the one reconsidered from the last packet have both come. The time waited, in both, is to the microsecond a random factor between 1/2 and 3/2 over 1.21828 of the least time at which the members of our role keep to their share of the bandwidth, not below the minimum (half of it before the first report), or that of the BYE packets; when it fires, this moment becomes the time of the last packet; otherwise it fires no earlier than the next time |
| SchedulerIntervals.IntervalExact | Monal/jrtplib/rtcpscheduler.cpp:240-316 | Every interval of the timer, for a report or a BYE, meets that description from both sides: senders and receivers have their own shares, or all share all of it if there are more senders than their part is meant for |
| SchedulerIntervals.BandwidthKept | Monal/jrtplib/rtcpscheduler.cpp:206-316 | Whatever times meet the description, for all counts of senders and members: with the random factor and the compensation taken off, senders and receivers together stay within the control bandwidth |
| SchedulerIntervals.WaitsKeepBandwidth | Monal/jrtplib/rtcpscheduler.cpp:206-316 | The times that the timer really waits do |
| RtcpTimer.RtcpScheduler.CalculateDeterministicInterval | Monal/jrtplib/rtcpscheduler.cpp:250-298 | The result is the least number of microseconds, not below the minimum, at which the members that share a part of the bandwidth do not exceed it: one more and they are within it, and above the minimum they are not below it |
| RtcpTimer.RtcpScheduler.PerformReverseReconsideration | Monal/jrtplib/rtcpscheduler.cpp:318-357 | With a count that is not negative the time of the last packet moves forward, at most to now, and the next time to no later than it was or than now; with any counts it moves back exactly where Gentle fails |
| SchedulerIntervals.LeftExact | Monal/jrtplib/rtcpscheduler.cpp:318-357 | When the group shrinks, of the time to the next packet and of the time since the last exactly the part of the members that are left remains, cut down to the microsecond; for all counts |
| RtcpTimer.RtcpScheduler.ScheduleBYEPacket | Monal/jrtplib/rtcpscheduler.cpp:359-386 | The BYE waits the time that the members saying goodbye need with BYE packets of this size, with the random factor and the compensation, and no less than half the minimum, unless fewer than 50 members and the immediate option let it go now; a BYE that is scheduled already is left alone, and the count of BYEs begins with one |
| SchedulerRuns.AggregateBandwidth | Monal/jrtplib/rtcpscheduler.cpp:250-298 | For every setting that the setters accept and all counts, also with more senders than active members, senders and receivers together use at most the control bandwidth, and exactly all of it where the minimum interval is not binding and there are members |
| SchedulerRuns.IntervalAtLeast | Monal/jrtplib/rtcpscheduler.cpp:300-316 | Every interval but that of an immediate BYE is at least half the (possibly halved) minimum over 1.21828, to the microsecond |
| SchedulerRuns.Spaced | Monal/jrtplib/rtcpscheduler.cpp:181-236 | Over every run with a monotone clock, whatever joins, leaves, BYEs and parameter changes it contains, any two moments at which the timer fires are at least that far apart, if no reconsideration of the run moves the last packet back (Steady), which only one from a negative count to a lower one can |
| SchedulerRuns.ReverseReconsideration | Monal/jrtplib/rtcpscheduler.cpp:318-357 | For all times and counts, negative ones included: exactly when the time of the last packet does not move back, when it does not move past now, when the next time does not move to later than it was or than now, and when it does not move to before now; a negative part of a time is taken exactly |
| SchedulerRuns.StepPrev | Monal/jrtplib/rtcpscheduler.cpp:181-420 | No operation moves the time of the last packet to before a time that it and the clock have passed, except for a reconsideration that is not Gentle |
| SchedulerRuns.NegativeCountsMoveBack | Monal/jrtplib/rtcpscheduler.cpp:341-350 | A fall of the count from -1 to -2 moves the time of the last packet back |
| SchedulerRuns.DelayIsSafe | Monal/jrtplib/rtcpscheduler.cpp:160-179 | Before an announced delay has passed, the timer does not fire |
| SchedulerRuns.ImmediateBye | Monal/jrtplib/rtcpscheduler.cpp:376-385 | A BYE that may go at once goes at the next check |
| RtpPacket.RoundTrip | Monal/jrtplib/rtppacket.cpp:223-321 | Every packet that is built parses to the same marker, payload type, number, timestamp, SSRC, CSRCs, extension and payload if and only if the payload's length fits a signed 32-bit number |
| RtpPacket.LongPayloadLost | Monal/jrtplib/rtppacket.cpp:124-180 | A packet with a payload of 2^31 bytes is built, and is not accepted when it is parsed |
| RtpPacket.ParsedRebuilds | Monal/jrtplib/rtppacket.cpp:103-206 | Every accepted packet is, but for its padding, what the builder writes from the parsed parts, if and only if the true length of its payload is below 2^31; only payload types 72 and 73 are accepted and not built |
| RtpPacket.AcceptedFits | Monal/jrtplib/rtppacket.cpp:124-180 | In every accepted packet header, CSRCs, extension, payload and padding lie inside; their lengths sum to the packet length if and only if the payload's true length is below 2^31 |
| RtpPadding.AcceptedExact | Monal/jrtplib/rtppacket.cpp:103-206 | Exactly those bytes are accepted that are a header, CSRCs, extension, payload and padding that ends with its length, without the two types of reports, and these are the parts that are read, if the payload is shorter than 2^31 |
| RtpPadding.BuildExact | Monal/jrtplib/rtppacket.cpp:223-247 | The builder takes its arguments if and only if they make up such a packet without padding, of no type 72 or 73, within the maximum size, and writes it |
| RtpPacket.BeyondIsHarmless | Monal/jrtplib/rtppacket.cpp:158-175 | An extension header read beyond the packet's end never decides anything: such a packet is refused whatever is read |
| RtpDataPacket.DataPacket.BuildPacket | Monal/jrtplib/rtppacket.cpp:223-321 | The buffer is the encoding of the arguments, the fields describe it, and every refusal comes in the code's order |
| RtpDataPacket.DataPacket.ParseRawPacket | Monal/jrtplib/rtppacket.cpp:103-206 | Accepts exactly the packets of the specification and fills the fields with what it reads |
| RtpDataPacket.DataPacket.GetCSRC | Monal/jrtplib/rtppacket.cpp:208-221 | The num-th CSRC in the packet's bytes, or 0 |
| PacketSender.PacketBuilder.AddCSRC | Monal/jrtplib/rtppacketbuilder.cpp:112-129 | The list grows by the CSRC exactly if it is new and fewer than 15 are listed; it has no duplicates |
| PacketSender.PacketBuilder.DeleteCSRC | Monal/jrtplib/rtppacketbuilder.cpp:131-155 | Exactly the CSRC leaves the list, though the order changes |
| PacketSender.PacketBuilder.BuildPacket | Monal/jrtplib/rtppacketbuilder.cpp:240-271 | The packet carries the builder's numbers, which advance exactly if it is built |
| PacketSender.SentIsNumberedThrough | Monal/jrtplib/rtppacketbuilder.cpp:262-268 | What one builder sends, received in order, gets consecutive extended numbers over any number of wrap-arounds |
| PacketSender.CountersExact | Monal/jrtplib/rtppacketbuilder.cpp:262-268 | After any packets, the counts for sender reports are the numbers of packets and payload bytes, and the timestamp has gone on by the sum of the increments, modulo 2^32 |
| PacketRoundRuns.ByeAlwaysFits | Monal/jrtplib/rtcppacketbuilder.cpp:628-738 | With a maximum of at least 600 a BYE packet is always built, with exactly its report header, own CNAME and BYE, in at most 560 bytes |
| PacketRoundRuns.Opens | Monal/jrtplib/rtcppacketbuilder.cpp:195-254 | A packet outside a round is never refused nor too large, reports on the first source if there is any, and opens the next round unless the reports fill it |
| PacketRoundRuns.GoesOn | Monal/jrtplib/rtcppacketbuilder.cpp:255-296 | A packet within a round is never refused nor too large, and takes at least one pending item, in order; what is left pending is exactly the rest |
| PacketRoundRuns.RoundEnds | Monal/jrtplib/rtcppacketbuilder.cpp:504-621 | A round ends within as many packets as it has items pending, at most six, and those packets carry every pending item once, in order |
| RoundTurns.TurnsExact | Monal/jrtplib/rtcppacketbuilder.cpp:504-621 | Over every run of packets from the start: in every round that is over, an item with interval n went out exactly once if n divides the number of the round, and not at all otherwise |
| RtcpPacketBuilder.PacketBuilder.BuildNextPacket | Monal/jrtplib/rtcppacketbuilder.cpp:106-308 | Always succeeds once initialised; the bytes are the image of the packet that the specification gives, within the maximum, and the round's state follows |
| RtcpPacketBuilder.PacketBuilder.BuildBYEPacket | Monal/jrtplib/rtcppacketbuilder.cpp:628-738 | Always succeeds once initialised, with the image of the specification's packet, of at most 560 bytes |
| RtcpPacketBuilder.PacketBuilder.FillInSDES | Monal/jrtplib/rtcppacketbuilder.cpp:504-621 | Adds the longest run of pending items that fits, marks exactly those, and reports whether all were added |
| RtcpPacketBuilder.PacketBuilder.FillInReportBlocks | Monal/jrtplib/rtcppacketbuilder.cpp:387-435 | Adds the blocks of the list in order until the limit is reached or one does not fit, and says which |
| SessionRuns.SessionInvariant | Monal/jrtplib/rtpsession.cpp:1340-1518 | After every call, failed or not, the builders' SSRC is the own entry's and the goodbyes built are those that left and those that wait, in order. Timer and queue agree after it if and only if: the timer fired, and the transmission succeeded or at most one goodbye was waiting for it; or it did not fire, and they agreed before |
| SessionRuns.RawKeeps | Monal/jrtplib/rtpsession.cpp:1346-1422 | The SSRC changes if and only if a packet collides with it from an address that is new; the replacement is no entry's, CreateOwnSSRC never fails on it, and a goodbye is queued exactly if something was sent under the old one |
| SessionRuns.FreshIsFree | Monal/jrtplib/rtppacketbuilder.cpp:176-193 | An SSRC that no entry has is accepted for the own entry after the old one is deleted |
| SessionRuns.CollisionHasSender | Monal/jrtplib/rtpcollisionlist.cpp:61-64 | A collision with the own entry always has a sender's address, so that noting it never fails |
| SessionRuns.CollisionNoted | Monal/jrtplib/rtpcollisionlist.cpp:61-85 | An address is reported as new if and only if it is not listed; it is listed then, once, with the time of now |
| SessionRuns.CollisionsForgotten | Monal/jrtplib/rtpcollisionlist.cpp:100-117 | Exactly the addresses that did not collide for too long are forgotten |
| TimerCalls.LeavingsExact | Monal/jrtplib/rtpsources.cpp:1221-1236 | In any pass, the active count at its end is the old one less exactly the active entries that were dropped |
| SessionRuns.FirstInFirstOut | Monal/jrtplib/rtpsession.cpp:1483-1507 | Over every run from creation, with data and APP packets sent in between and any transmissions failing: goodbyes leave the queue in the order in which they were built, those transmitted are the ones among them whose transmission succeeded, and without a failure none is lost |
| SessionRuns.AgreementExact | Monal/jrtplib/rtpsession.cpp:1455-1515 | Over every run, the timer has a BYE scheduled exactly if one is queued, if and only if the last call in which it fired succeeded or found at most one goodbye |
| SessionWitness.TwoGoodbyesWait | Monal/jrtplib/rtpsession.cpp:1362-1430 | A run from creation, with two collisions and a data packet sent before each, after which two goodbyes wait |
| SessionWitness.FailedSendStrands | Monal/jrtplib/rtpsession.cpp:1485-1494 | The same run and one failed transmission: a goodbye waits, and no BYE is scheduled |
| SessionSpacing.SessionSpaced | Monal/jrtplib/rtpsession.cpp:1434-1515 | Over every run of a session, whatever arrives, collides, times out, says goodbye or fails to be sent: any two calls in which the timer fires keep its least interval, unless the second is for a BYE that may go at once, if the clock does not go back and at no call have more than two contributing sources become active uncounted since the last timeouts |
| SessionSpacing.FewListedOrderly | Monal/jrtplib/rtpsources.cpp:329-356 | By what arrives alone: every run from creation whose data packets list at most two contributing sources altogether, as without mixers, meets that condition |
| SpacingWitness.ThreeMissedTooSoon | Monal/jrtplib/rtcpscheduler.cpp:318-357 | With three the claim fails: a run from creation in which a mixer names three known sources and all say goodbye, the timer is told of 1, 0, -1 and -2 members, and fires again before its least interval is over |
| SessionCounts.ToldExact | Monal/jrtplib/rtpsessionsources.cpp:76-91 | Every count that the timer is told in a call, for a goodbye or a timeout, is the number of entries active at that moment, the own one always among them, less what the counter had missed before the call and the contributing sources that arrived in it uncounted |
| SessionCounts.RunMissed | Monal/jrtplib/rtpsources.cpp:340-356 | Over every run of a session the active counter is short by exactly the contributing sources that arrived uncounted since the last call that came to its timeouts |
| RtpSession.RtpSession.ProcessPolledData | Monal/jrtplib/rtpsession.cpp:1340-1518 | The session object, over its source table, timer and packet builder objects: all of them end up as the session machine says, with the time limits that the timer object's interval gives, what is sent are the bytes of the packet that it sends, and the invariant is kept |
| SessionTimeouts.PollRemoves | Monal/jrtplib/rtpsession.cpp:1434-1459 | A call without an error on its packets removes from the table after them exactly the remote sources that are silent longer than the general limit or gone longer than that for BYE, and clears the flags and notes that are older than theirs |
| SessionTimeouts.LimitsExact | Monal/jrtplib/rtpsession.cpp:1434-1444 | The time limits are the multiples of the least interval at which the receivers keep to their share of the bandwidth, whether or not we send |
| SessionTimeouts.GroupExact | Monal/jrtplib/rtpsession.cpp:1455-1475 | The timer is asked for the number of sources that send, the active count, and whether the own entry sends |
| SessionTimeouts.ReportExact | Monal/jrtplib/rtcppacketbuilder.cpp:106-175 | Without a goodbye to send, a call that sends something sends a sender report exactly if the own entry is a sender after the timeouts, under the own SSRC and with the CNAME first |
| RtpSession.RtpSession.SendPacket | Monal/jrtplib/rtpsession.cpp:579-607 | A data packet is built by the packet builder; exactly if it is sent, the own entry is a sender and the SSRC counts as known to others |
| RtpSession.RtpSession.Create | Monal/jrtplib/rtpsession.cpp:191-321 | Succeeds exactly for a large enough maximum and a timestamp unit that is not negative, and leaves the objects as a new session |
| RtpSession.RtpSession.QueueByePacket | Monal/jrtplib/rtpsession.cpp:1379-1403 | The packet builder builds the goodbye under the old SSRC, it joins the queue, and the timer object schedules it exactly if it is the first |
| RtpSession.RtpSession.ChangeOwnSSRC | Monal/jrtplib/rtpsession.cpp:1407-1428 | Both objects change over to the first number drawn that no entry has; the own entry is replaced |

## Left out

- Transmitters, sockets, the poll thread and locks: packets that wait are an input, and so is whether a transmission succeeds.
- The clock, random numbers and random SSRCs: inputs; that a free SSRC is eventually drawn is assumed, and a list of draws without one is a failure of its own.
- Floating point: intervals, jitter and loss fractions are in exact arithmetic; conversions to unsigned numbers that overflow, and infinite or undefined intervals for a bandwidth or share of zero, are not modelled.
- The 32-bit wrap of the seconds counter in the timer (it is modelled in the source table's time differences).
- Memory managers, allocation failure, debug dumps, error strings, and the callbacks for packets of unknown type (`RTP_SUPPORT_RTCPUNKNOWN`).
- `rtphashtable.hh`: the algorithm of `rtpkeyhashtable.hh` again.
- Objective-C interfaces and the user interface: no bodies to model.
- KeyHashTable.Table.GotoNextElement: a cursor that is valid is a precondition, because it is uninitialised before the first search and stale after Clear.
- RtcpBuilder.CompoundPacketBuilder.EndBuild: does not model building into a buffer of the caller's; sums of sizes are not modelled to wrap, only the difference that decides whether a report header fits.
- Sources.RtpSources.ProcessRTPPacket: the table object sits on a list of entries in order of insertion; that the hash table does for such a list what is asked of it is proved in SourceIndex, but the table object does not hold the hash table itself.
- SourceData.RtpSourceData.ProcessRTPPacket: packets are values, so that the sharing of packet objects between queue and caller is not captured; the timestamp unit, which may be estimated from sender reports, is an input.
- Sources.RtpSources.ProcessRTCPCompoundPacket: callbacks for APP packets and for packets of unknown type or format are not modelled; such packets are in the list and have no effect on the table.
- Sources.RtpSources.UpdateReceiveTime: the stored contents of sender and receiver reports and of private SDES items are not modelled, only their effect on the table.
- SourceLives.LifeExact: the queue of packets, the text of a BYE and the items other than CNAME and note are not part of the life; they are covered entry by entry in SourceData.
- RoundTurns.TurnsExact: presumes that the intervals of the items are not changed during the run.
- SourceTableRuns.FusedIsSeparate: callbacks are compared by kind and SSRC; in the fused pass the callback for a dropped entry sees its old note cleared already.
- RtcpPacketBuilder.PacketBuilder.BuildNextPacket: report blocks and sender info are inputs of the builder object; the walks of ReportSelection, which are proved to give its packets, go over sources of their own that hold the mark of the walk, not over the entries of the source table object.
- RtcpPacketBuilder.PacketBuilder.FillInReportBlocks: which sources the blocks are for is left to ReportSelection.
- RtcpPacketBuilder.PacketBuilder.FillInSDES: the six alike conditionals for the item types are a loop over those types in their order.
- RtpDataPacket.DataPacket.BuildPacket: does not model a buffer of the caller's.
- RtpSession.RtpSession.ProcessPolledData: besides clock and random numbers, the report blocks and the sender info are inputs of a call, and parameters with which no interval is infinite are presumed; goodbyes in the queue are kept as their bytes and packet lists.
- SchedulerRuns.ReverseReconsideration: a negative part of a time, which a negative count gives where time is left, is taken exactly; the code converts it to unsigned seconds, whose value the language leaves open. The run of SpacingWitness has no such part.
- ReportSelection.FirstWalkDefined: presumes fewer than 2^32 packets and reports, after which the 32-bit count of an interval may be zero again.
- RtpSession.RtpSession.Create: the failures of setting up threads, transmitters and the CNAME, and the tear-down after a failure, are not modelled.
- RtpSession.RtpSession.ChangeOwnSSRC: a finite list of random numbers replaces the loop that draws until one is free.
- RtpSession.RtpSession.SendPacket: stands for its variants too, which differ in what the packet builder is asked for; sending an APP packet is an event of its own in the runs, and its effect on the flag is the same.
- Destroy and BYEDestroy, which end a session, are not modelled.
- PacketSender.PacketBuilder.BuildPacket: the wall-clock time and timestamp of the last packet are not modelled.
