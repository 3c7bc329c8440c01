# HDA output driver model

A Dafny model of the Intel High Definition Audio output driver `kernel-src/io/audio/hda.c`, together with proofs about it. The driver follows the Intel High Definition Audio Specification rev. 1.0a.

The model covers:

- the codec commands ("verbs") and the register bit fields the driver builds;
- the stream format word that `makehdaformat` negotiates;
- the short-form connection-list decode of `hdaenumeratecodec`;
- the explicit-stack depth-first search `hdafindoutputpaths` for output paths;
- the commands `hdasetactivepath` and `hdasetactiveparams` send to a path's widgets;
- the OSS setters for rate, channel count and format;
- the command-ring bookkeeping:
  - CORB and RIRB slots;
  - the waiter table;
  - the wake walk of `hda_irq`;
  - the ring-size choice from SZCAP;
- the playback engine of the first output stream:
  - the interrupt that refills one page per buffer completion;
  - `hdaqueue`, `hdapause`, `hdaresume_unlocked` and `hdagetbufferavail`;
  - the exclusive `hdaopen`/`hdaclose`.

The model is sequential. Hardware registers are fields. Blocking is split at the point where a thread sleeps. While a writer waits, the interrupts that run are given as a schedule argument. Each `__assert` of the driver is modelled in one of two ways:

- as a `Panic` result, when it checks data the driver reads;
- as a `requires`, when it checks the driver's own arguments.

Modules:

| module | file | contents |
|---|---|---|
| HdaTypes | common.dfy | machine integer ranges, `Option`, `Result`, C truncations |
| HdaVerbs | verbs.dfy | verb builders, the commands, their encoding and decoding |
| HdaRegisters | registers.dfy | bit-field macros, ring size selection |
| HdaFormat | format.dfy | `makehdaformat` and its 43-branch rate ladder |
| HdaConnections | connections.dfy | connection-list decode (two passes over arrays) |
| HdaPaths | paths.dfy | `pathstackpush` (class over an array) and the search |
| HdaCommandRing | command_ring.dfy | `hdasendverbandwait` and `hda_irq` on a controller class |
| HdaActivation | activation.dfy | the command lists of `hdasetactivepath` and `hdasetactiveparams` |
| HdaStream | stream.dfy | FIFO, refill interrupt, waits, stream descriptor class |
| HdaDevice | device.dfy | setters, open/close, resume, queue, on path and codec classes |

### Kept as written

In six places the code does something other than what its authors evidently meant. The model follows the code in each case, and the contracts state the consequence:

- **Missing `else` (hda.c:971-975).** The test for requests up to 5513 Hz has no `else` after it, so the ladder below it runs as well. For such requests:
  - the reported rate is 6000 Hz;
  - the format word selects 44.1 kHz / 8, which rounds to 5513 Hz.

  See `NegotiatedFormatRate` and `LowestRateBits`.
- **Selector index written to element 0 (hda.c:655).** In a range expansion, the selector index is stored through `connections->`, so it lands in element 0. The expanded elements keep whatever the allocator left there. See `RangeWritten`, `RangeEntryDecodes` and `FirstConnectionSelector`.
- **Channel count replaced by the rate bounds (hda.c:1293-1298).** `hdasetchannels` replaces an out-of-range count with the rate bounds:
  - it returns 5513 and stores 137;
  - or it returns 192000 and stores 0.

  See `ChannelsReplaced`.
- **Wrong field tested (hda.c:448).** The "no connection" test reads bits 30-31 of the pin capabilities rather than of the configuration default. See `SearchablePin`.
- **Requested channel count sent (hda.c:1162).** `hdasetactiveparams` sends the requested channel count to the converter, not the negotiated one. See `ConverterChannelsAgree` and `ActiveParamsChannels`.
- **Inclusive wake walk (hda.c:1227).** The walk starts at `lastprocessedrirb` itself, so each walk wakes the previous walk's last slot again. See `ConsecutiveWalksOverlap`.

## Model

| member | source | states |
|---|---|---|
| HdaTypes.ToU8 | kernel-src/io/audio/hda.c:1300-1301 | the value stored in a uint8_t field is congruent to the int assigned modulo 256, and equal to it when it is in range |
| HdaTypes.U32ToInt | kernel-src/io/audio/hda.c:320-321 | a uint32_t value seen as an int is its two's complement reading, in the int range and congruent modulo 2^32 |
| HdaVerbs.MakeVerb | kernel-src/io/audio/hda.c:286-291 | given its two asserts, the codec address, node id and payload are read back from bits 28-31, 20-27 and 0-19 |
| HdaVerbs.MakeShortVerb | kernel-src/io/audio/hda.c:293-296 | the payload is a 12-bit identifier above an 8-bit data byte, with address and node id in place |
| HdaVerbs.MakeLongVerb | kernel-src/io/audio/hda.c:298-301 | the payload is a 4-bit identifier above a 16-bit data word, with address and node id in place |
| HdaVerbs.ConverterControlStream | kernel-src/io/audio/hda.c:371-377 | with channel 0 the converter-control byte carries the stream number in bits 4-7 |
| HdaVerbs.Encode | kernel-src/io/audio/hda.c:336-407 | every helper's verb is addressed to the codec and node of its command |
| HdaVerbs.ShortVerbDecodes | kernel-src/io/audio/hda.c:293-296 | a short verb with an identifier 0x7xx or 0xfxx is read back as a short verb with the same identifier and data |
| HdaVerbs.LongVerbDecodes | kernel-src/io/audio/hda.c:298-301 | a long verb with one of the driver's 4-bit identifiers is read back as that long verb |
| HdaVerbs.EncodeDecode | kernel-src/io/audio/hda.c:336-407 | every command the helpers send is decoded by the codec as the same command for the same codec (the converter channel being 0) |
| HdaRegisters.CorbWpSetWp | kernel-src/io/audio/hda.c:28 | the write pointer lands in bits 0-7 and bits 8-15 are kept |
| HdaRegisters.RirbWpWp | kernel-src/io/audio/hda.c:38 | the response write pointer read from RIRBWP is below 256 |
| HdaRegisters.RirbStsClearIntFl | kernel-src/io/audio/hda.c:46-47 | the interrupt flag bit is written as 1 and the other bits are kept |
| HdaRegisters.SdCtl0SetRst | kernel-src/io/audio/hda.c:55 | SRST reads back as the value set and the other bits are kept |
| HdaRegisters.SdCtl0SetRun | kernel-src/io/audio/hda.c:56 | RUN reads back as the value set and the other bits are kept |
| HdaRegisters.SdCtl0SetIoce | kernel-src/io/audio/hda.c:57 | IOCE reads back as the value set and the other bits are kept |
| HdaRegisters.SdCtl2SetStrm | kernel-src/io/audio/hda.c:60 | the stream number reads back from bits 4-7 and bits 0-3 are kept |
| HdaRegisters.SdStsClearBcis | kernel-src/io/audio/hda.c:62-63 | the completion status bit is written as 1 and the other bits are kept |
| HdaRegisters.SetSize | kernel-src/io/audio/hda.c:35-36 | the size field (bits 0-1) reads back as set and bits 2-7 are kept |
| HdaRegisters.SelectRingSize | kernel-src/io/audio/hda.c:1668-1688 | the ring gets the largest of 2, 16 and 256 entries that SZCAP announces, with the register's other bits kept and the size field naming that count; it panics exactly when none is announced |
| HdaFormat.FmtChan | kernel-src/io/audio/hda.c:67 | the channel field is channels - 1, in four bits |
| HdaFormat.LadderShape | kernel-src/io/audio/hda.c:975-1146 | the ladder has 43 well-formed branches with strictly ascending bounds, ending at 176400 and 192000 |
| HdaFormat.LadderRatesExact | kernel-src/io/audio/hda.c:975-1146 | the base, multiplier and divisor of each branch select, rounded, the rate that branch reports |
| HdaFormat.AscendingFromAdjacent | kernel-src/io/audio/hda.c:975-1146 | adjacent ascending bounds make the whole ladder ascending |
| HdaFormat.LadderAscending | kernel-src/io/audio/hda.c:975-1146 | any two branches of the ladder are in ascending order of bound |
| HdaFormat.SelectStep | kernel-src/io/audio/hda.c:975-1146 | the else-if walk picks a branch of the ladder whose bound is at least the request, or the final else |
| HdaFormat.AscendingTail | kernel-src/io/audio/hda.c:975-1146 | the branches after the first still ascend |
| HdaFormat.SelectStepLeast | kernel-src/io/audio/hda.c:975-1146 | the walk picks the smallest bound at least the request |
| HdaFormat.SelectStepLast | kernel-src/io/audio/hda.c:1143-1146 | the final else is reached exactly when every other bound is below the request |
| HdaFormat.SelectStepMonotone | kernel-src/io/audio/hda.c:975-1146 | a larger request never selects a smaller rate |
| HdaFormat.FormatWordFields | kernel-src/io/audio/hda.c:945-1149 | the channel field, sample-size field and rate bits ORed into the word read back unchanged, and the word stays below 0x8000 |
| HdaFormat.StepBitsFields | kernel-src/io/audio/hda.c:975-1146 | a branch's bits read back as its base, multiplier and divisor and select its rounded rate |
| HdaFormat.LadderStepWellFormed | kernel-src/io/audio/hda.c:975-1146 | every branch is well formed and exact |
| HdaFormat.NegotiateChannels | kernel-src/io/audio/hda.c:935-943 | 0 channels become 2, more than 16 become 16, and 1 to 16 are kept |
| HdaFormat.NegotiateSampleSize | kernel-src/io/audio/hda.c:948-967 | the size is the smallest of 8, 16, 20, 24 and 32 that is at least the request (32 above 32), and its field names it |
| HdaFormat.NegotiateRate | kernel-src/io/audio/hda.c:969-1148 | the rate bits touch only the base, multiplier and divisor fields |
| HdaFormat.MakeHdaFormat | kernel-src/io/audio/hda.c:934-1150 | the word carries the negotiated channel count and sample size, selects the rate of the rate bits, and the reported parameters are the negotiated ones |
| HdaFormat.NegotiatedRate | kernel-src/io/audio/hda.c:969-1148 | the reported rate is a ladder bound: the least one at least the request, and 192000 exactly for requests above 176400 |
| HdaFormat.NegotiatedFormatRate | kernel-src/io/audio/hda.c:971-978 | above 5513 Hz the word selects the reported rate; up to 5513 Hz, 6000 is reported while the word selects 5513 |
| HdaFormat.LowestRateBits | kernel-src/io/audio/hda.c:971-978 | the first branch ORed over the 5513 Hz bits gives 0x4700, which selects 5513 Hz |
| HdaFormat.NegotiatedRateMonotone | kernel-src/io/audio/hda.c:969-1148 | a larger requested rate never yields a smaller reported rate |
| HdaConnections.Entries | kernel-src/io/audio/hda.c:616-621 | the list has exactly the announced number of entries |
| HdaConnections.EntriesAt | kernel-src/io/audio/hda.c:616-621 | entry k is byte k mod 4 of the response read at k - k mod 4 |
| HdaConnections.EntryNids | kernel-src/io/audio/hda.c:624-634 | an entry stands for as many node ids as the first pass counts for it |
| HdaConnections.RangeWritten | kernel-src/io/audio/hda.c:648-656 | the range loop appends one element per id of the range |
| HdaConnections.DecodePrefix | kernel-src/io/audio/hda.c:643-664 | the second pass over k entries writes exactly as many elements as the first pass counted |
| HdaConnections.FirstPanicNone | kernel-src/io/audio/hda.c:624-627 | no assert trips exactly when every entry passes its checks |
| HdaConnections.FirstPanicExtends | kernel-src/io/audio/hda.c:624-627 | once an assert trips, later entries do not change which one |
| HdaConnections.ListCountMonotone | kernel-src/io/audio/hda.c:629-634 | the connection count never decreases over the entries |
| HdaConnections.RangeWrittenStep | kernel-src/io/audio/hda.c:653-655 | one more turn of the range loop appends the next id with the allocator's selector and stores `i - 1` in element 0's selector |
| HdaConnections.ListByteOfRead | kernel-src/io/audio/hda.c:619-621 | byte i of the response read at offset 4r is entry 4r + i |
| HdaConnections.ChunkEntries | kernel-src/io/audio/hda.c:616-621 | the entries one response carries are its bytes, lowest first |
| HdaConnections.PanicAt | kernel-src/io/audio/hda.c:624-627 | the first failing entry decides the panic of the whole list |
| HdaConnections.ReadResponse | kernel-src/io/audio/hda.c:616-637 | one response's entries are stored and counted, or the list's first failing assert is reported |
| HdaConnections.ReadConnectionList | kernel-src/io/audio/hda.c:614-638 | the first pass yields the entries and their count, or panics with the first failing assert |
| HdaConnections.ExpandRange | kernel-src/io/audio/hda.c:648-656 | the array's prefix becomes the range-written elements and the rest is left untouched |
| HdaConnections.ExpandEntry | kernel-src/io/audio/hda.c:645-663 | one outer turn extends the written prefix by that entry's elements |
| HdaConnections.ExpandConnectionList | kernel-src/io/audio/hda.c:640-666 | the second pass yields the decode of all entries, and the asserted offset equals the first pass's count |
| HdaConnections.DecodeConnectionList | kernel-src/io/audio/hda.c:607-669 | no list gives no connections, a long-form list panics, and otherwise the result is the first failing assert or the decode of the entries |
| HdaConnections.Nids | kernel-src/io/audio/hda.c:235-238 | one node id per connection |
| HdaConnections.DecodedNids | kernel-src/io/audio/hda.c:643-666 | the decoded node ids are the entries with every range expanded to the ids after the previous entry, as many as the first pass counted |
| HdaConnections.DecodeStable | kernel-src/io/audio/hda.c:643-664 | elements written earlier keep their place, except that element 0's selector may change |
| HdaConnections.LiteralEntryDecodes | kernel-src/io/audio/hda.c:658-663 | a node-id entry at position j lands where the first pass had counted up to j, with selector j |
| HdaConnections.RangeEntryDecodes | kernel-src/io/audio/hda.c:648-656 | the t-th id of a range is the previous entry's id plus 1 + t, and its selector is the allocator's byte |
| HdaConnections.FirstConnectionSelector | kernel-src/io/audio/hda.c:655 | element 0 carries the first entry's id, and its selector is 0 unless a range adds connections, in which case it is the position before the last such range |
| HdaConnections.NoRangesDecode | kernel-src/io/audio/hda.c:658-663 | without ranges the decode is one connection per entry whose selector is its own position |
| HdaPaths.SearchablePin | kernel-src/io/audio/hda.c:443-449 | (definition) a pin is searched when bit 4 of its pin capabilities is set and bits 30-31 of the pin capabilities are not 01 |
| HdaPaths.SearchablePinIgnoresConfig | kernel-src/io/audio/hda.c:447-449 | whether a pin is searched never depends on its configuration default, whose connectivity field the test is meant for |
| HdaPaths.SearchablePinWitnesses | kernel-src/io/audio/hda.c:447-449 | a pin whose configuration default says "no physical connection" is still searched; an output-capable pin with 01 in bits 30-31 of its pin capabilities is skipped |
| HdaPaths.OutputPath | kernel-src/io/audio/hda.c:451-508 | (definition) what the search records: 2 to 21 distinct widgets, starting at a searchable pin, each in the connection list of the one before, ending at an AUDIO_OUT |
| HdaPaths.PathStack.constructor | kernel-src/io/audio/hda.c:439 | the stack starts empty with no capacity |
| HdaPaths.PathStack.GrownCap | kernel-src/io/audio/hda.c:421-428 | a full stack grows to a larger capacity of at least 8 |
| HdaPaths.PathStack.Push | kernel-src/io/audio/hda.c:420-436 | a full stack grows to GrownCap, the entries in use are kept, and the new entry goes on top |
| HdaPaths.Weight | kernel-src/io/audio/hda.c:500-501 | every stack level up to the depth cap has a positive weight |
| HdaPaths.WeightStep | kernel-src/io/audio/hda.c:500-506 | fewer than 256 connections on one level weigh less than one connection on the level below |
| HdaPaths.PotentialSnoc | kernel-src/io/audio/hda.c:456-508 | the measure of a stack with one more entry adds that entry's remaining connections at its level's weight |
| HdaPaths.PotentialTake | kernel-src/io/audio/hda.c:463 | taking a connection lowers the measure by that level's weight |
| HdaPaths.PotentialPush | kernel-src/io/audio/hda.c:463-506 | taking a connection and pushing the widget reached lowers the measure |
| HdaPaths.PotentialPop | kernel-src/io/audio/hda.c:458-461 | popping an exhausted entry keeps the measure |
| HdaPaths.ShapePop | kernel-src/io/audio/hda.c:458-461 | popping keeps the stack's shape |
| HdaPaths.ShapeAdvance | kernel-src/io/audio/hda.c:463 | moving the top entry's connection index on keeps the stack's shape |
| HdaPaths.ShapePush | kernel-src/io/audio/hda.c:492-506 | pushing a widget that is connected, not yet on the stack and not an audio output keeps the shape |
| HdaPaths.CopyPath | kernel-src/io/audio/hda.c:468-478 | the recorded path is the stack's widgets, bottom first, followed by the audio output reached |
| HdaPaths.OnStack | kernel-src/io/audio/hda.c:492-498 | the circularity check holds exactly when the widget is already on the stack |
| HdaPaths.TakeConnection | kernel-src/io/audio/hda.c:457-463 | the top entry's index moves on by one and the widget of the connection it pointed at is returned |
| HdaPaths.Descend | kernel-src/io/audio/hda.c:503-506 | the widget reached is pushed with connection index 0, keeping the shape |
| HdaPaths.Arrive | kernel-src/io/audio/hda.c:464-507 | an audio output is recorded as an output path from the pin and empties the stack; otherwise the stack is kept, or grows by the widget when it is new and the depth allows |
| HdaPaths.Advance | kernel-src/io/audio/hda.c:457-507 | taking a connection records an output path or lowers the search's measure |
| HdaPaths.SearchStep | kernel-src/io/audio/hda.c:456-508 | each turn of the loop keeps the stack's shape and lowers the measure, or keeps it while popping |
| HdaPaths.SearchFromPin | kernel-src/io/audio/hda.c:451-508 | the search from a pin ends with an empty stack, and the path it records, if any, is an output path from that pin |
| HdaPaths.FindOutputPaths | kernel-src/io/audio/hda.c:438-516 | no more paths than pins, each starting at one of the pins; every recorded path is an output path: from a searchable pin, each widget in its predecessor's list, no repeat, an audio output at the end, at most 21 widgets; at most one per pin, in pin order |
| HdaPaths.RecordedPath | kernel-src/io/audio/hda.c:467-478 | the copy of a search stack followed by the audio output reached is an output path |
| HdaCommandRing.ModStep | kernel-src/io/audio/hda.c:316-322 | the slot after slot k mod count is (k + 1) mod count, wrapping at the last slot |
| HdaCommandRing.CorbPtrAfter | kernel-src/io/audio/hda.c:316-319 | after any number of verbs corbptr is UINT32_MAX or below the last slot |
| HdaCommandRing.RirbPtrAfter | kernel-src/io/audio/hda.c:320-322 | after any number of verbs rirbptr is -1 or below the last slot |
| HdaCommandRing.CorbPtrStep | kernel-src/io/audio/hda.c:310-319 | the pre-increment of corbptr picks entry (k + 1) mod count for the (k + 1)-th verb, and the wrap hack leaves the pointer describing k + 1 verbs |
| HdaCommandRing.RirbPtrStep | kernel-src/io/audio/hda.c:309 | the same for rirbptr, where UINT32_MAX stored into the int is -1 |
| HdaCommandRing.InFlightSlotsDistinct | kernel-src/io/audio/hda.c:1719 | fewer than count verbs in flight, as entrysem allows, never share a slot |
| HdaCommandRing.Distance | kernel-src/io/audio/hda.c:1227-1240 | the number of wrapping increments from slot a reaches slot b, and is below the ring size |
| HdaCommandRing.Span | kernel-src/io/audio/hda.c:1227-1240 | the walk visits one slot more than the distance from lastprocessedrirb to the write pointer |
| HdaCommandRing.SpanFirstHit | kernel-src/io/audio/hda.c:1227-1240 | the walk does not reach the write pointer before its last step |
| HdaCommandRing.SpanEnds | kernel-src/io/audio/hda.c:1227-1240 | the walk starts at lastprocessedrirb and ends at the write pointer |
| HdaCommandRing.SpanDistinct | kernel-src/io/audio/hda.c:1227-1240 | the visited slots are distinct ring entries |
| HdaCommandRing.SpanNext | kernel-src/io/audio/hda.c:1232-1239 | each step of the walk moves to the next slot, wrapping to 0 |
| HdaCommandRing.Wake | kernel-src/io/audio/hda.c:1227-1230 | (definition) the waiters of the given slots in order, or the panic at the first slot with none |
| HdaCommandRing.SpanMembership | kernel-src/io/audio/hda.c:1227-1240 | a slot is visited exactly when it is no further from lastprocessedrirb than the write pointer |
| HdaCommandRing.ConsecutiveWalksOverlap | kernel-src/io/audio/hda.c:1227-1242 | the last slot of one walk is the first of the next, so it is woken twice |
| HdaCommandRing.WakeMeaning | kernel-src/io/audio/hda.c:1227-1240 | the walk panics exactly when a visited slot has no waiter, naming the first; otherwise it wakes each visited slot's thread, in order |
| HdaCommandRing.WakePanicStays | kernel-src/io/audio/hda.c:1229 | a panic in part of the walk is the panic of the whole walk |
| HdaCommandRing.WakeSnoc | kernel-src/io/audio/hda.c:1229-1230 | a visited slot with a waiter adds that thread to those woken |
| HdaCommandRing.WakeStops | kernel-src/io/audio/hda.c:1229 | a visited slot without a waiter ends the walk in a panic naming it |
| HdaCommandRing.StreamOfInjective | kernel-src/io/audio/hda.c:1247-1268 | the interrupt bits name different streams |
| HdaCommandRing.Signalled | kernel-src/io/audio/hda.c:1249-1268 | (definition) the streams, input then output then bidirectional, whose INTSTS bits below `upto` are set, in bit order |
| HdaCommandRing.SignalledMembership | kernel-src/io/audio/hda.c:1247-1268 | a stream is serviced exactly when its INTSTS bit is set |
| HdaCommandRing.SignalledStreams | kernel-src/io/audio/hda.c:1247-1268 | the loops service the input, output and bidirectional streams whose bits are set, in that order |
| HdaCommandRing.Controller.constructor | kernel-src/io/audio/hda.c:1589-1591 | both pointers start at 0, lastprocessedrirb at 1, no waiters, and entrysem at the RIRB size |
| HdaCommandRing.Controller.PostVerb | kernel-src/io/audio/hda.c:304-327 | the verb goes to CORB entry sent mod corbCount, CORBWP points at it, and the thread waits on RIRB entry sent mod rirbCount |
| HdaCommandRing.Controller.TakeResponse | kernel-src/io/audio/hda.c:329-333 | the response is that of the thread's slot and entrysem gets its unit back |
| HdaCommandRing.Controller.Walk | kernel-src/io/audio/hda.c:1227-1240 | the loop wakes the waiters of the inclusive cyclic span, or panics at the first slot without one |
| HdaCommandRing.Controller.WakeResponders | kernel-src/io/audio/hda.c:1224-1246 | after the walk lastprocessedrirb becomes the write pointer |
| HdaCommandRing.Controller.HandleInterrupt | kernel-src/io/audio/hda.c:1220-1270 | a response interrupt wakes the span's waiters and acknowledges RIRBSTS; otherwise the signalled streams are serviced |
| HdaActivation.MaxGain | kernel-src/io/audio/hda.c:883 | the gain is a 7-bit field of the capabilities |
| HdaActivation.OutAmp | kernel-src/io/audio/hda.c:884-887 | the output amplifier of both channels is set to the maximum gain, unmuted |
| HdaActivation.InAmp | kernel-src/io/audio/hda.c:901-905 | the input amplifier of both channels is set to the maximum gain, unmuted |
| HdaActivation.FirstSelector | kernel-src/io/audio/hda.c:862-868 | (definition) the selector stored with the first connection, from index j on, naming the next widget; 0 when none does |
| HdaActivation.FirstSelectorFound | kernel-src/io/audio/hda.c:864-868 | the selector found is that of the first connection naming the next widget |
| HdaActivation.FirstSelectorNone | kernel-src/io/audio/hda.c:863-869 | with no connection naming it, the index stays 0 |
| HdaActivation.SelectorIndex | kernel-src/io/audio/hda.c:863-869 | the inner loop finds the first matching connection's selector, or 0 |
| HdaActivation.TypeCommands | kernel-src/io/audio/hda.c:878-925 | (definition) by widget type: pin, optional EAPD then output amp then pin control; mixer, output then input amp; AUDIO_OUT, output amp then converter control on stream 1; anything else, output amp |
| HdaActivation.WidgetCommands | kernel-src/io/audio/hda.c:854-926 | (definition) one widget's block: power-up, the connection select when it is not last and has several inputs, then its type commands |
| HdaActivation.PathCommands | kernel-src/io/audio/hda.c:854-926 | (definition) the blocks of all widgets of the path, in path order |
| HdaActivation.Blocks | kernel-src/io/audio/hda.c:854-926 | one block of commands per widget of the path |
| HdaActivation.SetUpWidget | kernel-src/io/audio/hda.c:878-925 | each widget type gets its EAPD, amplifier, pin and converter commands |
| HdaActivation.ActivateWidget | kernel-src/io/audio/hda.c:854-925 | one turn sends power-up, the selection when there is a choice, and the type's commands |
| HdaActivation.ActivePathCommands | kernel-src/io/audio/hda.c:853-926 | the loop sends the commands of every widget, in path order |
| HdaActivation.WidgetCommandsShape | kernel-src/io/audio/hda.c:854-925 | each widget's 2 to 5 commands begin with powering it up, are all addressed to it, and pass the converter-control asserts |
| HdaActivation.WidgetConverter | kernel-src/io/audio/hda.c:878-925 | only an audio output binds its converter to stream 1, with its last command |
| HdaActivation.SentToPath | kernel-src/io/audio/hda.c:853-926 | every command sent passes the asserts and is addressed to a widget of the path |
| HdaActivation.PowerUpFirst | kernel-src/io/audio/hda.c:857 | no widget is configured before it is powered up |
| HdaActivation.ConverterBound | kernel-src/io/audio/hda.c:908-916 | the audio output at the end of the path is bound to stream 1, the number SDnCTL carries |
| HdaActivation.ConverterOnly | kernel-src/io/audio/hda.c:878-925 | with no earlier audio output on the path, that is the only converter bound |
| HdaActivation.NextSelected | kernel-src/io/audio/hda.c:862-873 | a widget with a choice of inputs is switched to the selector of the first connection naming the next widget |
| HdaActivation.ActiveParamsCommands | kernel-src/io/audio/hda.c:1156-1165 | two commands to the converter: a channel count that is the requested one, then a format word below 0x8000 whose channels, bits and rate are those makehdaformat negotiates; SDnFMT gets the same word |
| HdaActivation.ConverterChannelsAgree | kernel-src/io/audio/hda.c:1162 | the announced channel count agrees with the format word exactly for requests of 1 to 16; a request of 0 announces 256 against 2 |
| HdaActivation.ActiveParamsChannels | kernel-src/io/audio/hda.c:1156-1163 | in the two verb words hdasetactiveparams sends, the announced channel count (data byte plus one) equals the channel count of the format word exactly for requests of 1 to 16; a request of 0 announces 256 against 2 |
| HdaStream.Fifo.FreeSpace | kernel-src/io/audio/hda.c:1367 | free space plus held bytes is the capacity |
| HdaStream.FifoInit | kernel-src/io/audio/hda.c:1358 | a new FIFO holds nothing and has its capacity free |
| HdaStream.FifoWrite | kernel-src/io/audio/hda.c:1391 | a write adds its bytes and takes as much free space |
| HdaStream.FifoRead | kernel-src/io/audio/hda.c:1200-1201 | a read removes up to n of the oldest bytes, the rest kept in order |
| HdaStream.FifoRemove | kernel-src/io/audio/hda.c:1489 | up to n bytes are dropped |
| HdaStream.FifoOrder | kernel-src/io/audio/hda.c:1391 | bytes leave the FIFO in the order they entered it |
| HdaStream.NextPosition | kernel-src/io/audio/hda.c:1209-1212 | (definition) one page on, back to 0 when that reaches 256 pages |
| HdaStream.Refill | kernel-src/io/audio/hda.c:1186-1212 | (definition) the page at the position is zeroed and the semaphore raised to 1 on underflow, otherwise filled from the FIFO with a signal below half; the position advances |
| HdaStream.NextPositionWraps | kernel-src/io/audio/hda.c:1209-1212 | the position stays a page of the list and advances by a page modulo the buffer length |
| HdaStream.PositionCycles | kernel-src/io/audio/hda.c:1209-1212 | after k completions the stream is k pages further, modulo 256 pages |
| HdaStream.ZeroPage | kernel-src/io/audio/hda.c:1197 | an underflow plays a page of zeros |
| HdaStream.RefillValid | kernel-src/io/audio/hda.c:1186-1212 | the interrupt keeps the stream well formed, loses no queued byte, advances the position and touches only the page just played |
| HdaStream.RefillUnderflow | kernel-src/io/audio/hda.c:1195-1199 | with less than a page buffered the page is zeroed, the FIFO is unchanged, and a signal up to 1 is raised |
| HdaStream.RefillConsumes | kernel-src/io/audio/hda.c:1200-1205 | otherwise exactly one page of the oldest bytes is played, and a writer is signalled exactly when less than half the capacity remains |
| HdaStream.RefillTimes | kernel-src/io/audio/hda.c:1186-1218 | any run of completions keeps the stream well formed |
| HdaStream.WaitSpec | kernel-src/io/audio/hda.c:1368-1376 | a wait uses at most the schedule's entries, and at least one when it ends |
| HdaStream.WaitUnfold | kernel-src/io/audio/hda.c:1370 | an uninterrupted sleep wakes on a pending signal or goes on waiting |
| HdaStream.RefillTimesShrinks | kernel-src/io/audio/hda.c:1186-1218 | completions keep the capacity, add no byte and lose none of those queued |
| HdaStream.WaitShrinks | kernel-src/io/audio/hda.c:1370 | a wait keeps the capacity, adds no byte and loses or reorders none |
| HdaStream.PrefillSpec | kernel-src/io/audio/hda.c:1419-1423 | the start-up copy keeps the position, semaphore and capacity |
| HdaStream.PrefillPage | kernel-src/io/audio/hda.c:1420-1422 | one page of the copy moves bytes from the FIFO without losing any |
| HdaStream.PrefillConserves | kernel-src/io/audio/hda.c:1419-1423 | the start-up copy plays the queued bytes in order and loses none |
| HdaStream.PrefillKeepsRest | kernel-src/io/audio/hda.c:1419-1423 | pages from count on are left alone |
| HdaStream.PrefillFull | kernel-src/io/audio/hda.c:1419-1423 | with count pages buffered exactly the oldest count pages of bytes are taken |
| HdaStream.PrefillPageAt | kernel-src/io/audio/hda.c:1419-1423 | page i then holds the i-th page of those bytes |
| HdaStream.DrainSpec | kernel-src/io/audio/hda.c:1450-1465 | the pause wait keeps the stream well formed |
| HdaStream.DrainEmpties | kernel-src/io/audio/hda.c:1451-1457 | a drain that ends without interruption ends with less than a page buffered and loses no byte |
| HdaStream.WaitNotInterrupted | kernel-src/io/audio/hda.c:1370-1374 | without interruptions a wait never returns interrupted |
| HdaStream.WaitEndsAtInterruption | kernel-src/io/audio/hda.c:1370-1374 | an interrupted wait ends at an interruption of the schedule |
| HdaStream.Stream.constructor | kernel-src/io/audio/hda.c:1772-1823 | IOCE and stream 1 set, position 0, an empty FIFO of no capacity, no pending signal |
| HdaStream.Stream.Interrupt | kernel-src/io/audio/hda.c:1186-1218 | the stream moves as Refill says and the completion status is acknowledged, or the assert panics without it |
| HdaStream.Stream.Completions | kernel-src/io/audio/hda.c:1186-1218 | k interrupts move the stream as k refills |
| HdaStream.Stream.SleepThrough | kernel-src/io/audio/hda.c:1370 | the sleeper is woken exactly when a signal is pending after the completions, and takes it |
| HdaStream.Stream.Wait | kernel-src/io/audio/hda.c:1370-1376 | the wait moves the stream as WaitSpec says, keeps every queued byte, and ends interrupted only at an interruption |
| HdaStream.Stream.SetRun | kernel-src/io/audio/hda.c:1171-1175 | only the RUN bit changes |
| HdaStream.Stream.CopyFrom | kernel-src/io/audio/hda.c:1387-1391 | the lesser of the free space and the rest of the page is appended to the FIFO |
| HdaStream.Stream.InitBuffer | kernel-src/io/audio/hda.c:1358 | the FIFO is replaced by an empty one of the given capacity |
| HdaStream.Stream.Prefill | kernel-src/io/audio/hda.c:1419-1427 | the first count pages are filled as PrefillSpec says and the position is set past them |
| HdaStream.Stream.Drain | kernel-src/io/audio/hda.c:1450-1465 | the pause wait moves the stream as DrainSpec says |
| HdaStream.Stream.Reset | kernel-src/io/audio/hda.c:1469-1490 | SRST set and cleared, IOCE set, stream 1, position 0, and the FIFO emptied |
| HdaStream.Stream.Pause | kernel-src/io/audio/hda.c:1443-1496 | the optional drain runs only while the stream runs, RUN is cleared, the optional reset empties the stream, and 0 is returned |
| HdaStream.PausedStopped | kernel-src/io/audio/hda.c:1467-1482 | a paused stream is stopped, a reset one is out of reset with IOCE set, and the other control bits are kept |
| HdaDevice.ClampRate | kernel-src/io/audio/hda.c:1275-1280 | the rate is within 5513 and 192000, and unchanged exactly when it already was |
| HdaDevice.RateClamped | kernel-src/io/audio/hda.c:1275-1280 | out of range the nearer bound is used, clamping is idempotent and monotone |
| HdaDevice.ChannelsAsWritten | kernel-src/io/audio/hda.c:1293-1298 | (definition) the count hdasetchannels stores and returns: in range it is kept, below it the minimum rate, above it the maximum rate |
| HdaDevice.ChannelsReplaced | kernel-src/io/audio/hda.c:1293-1301 | in range the count is kept; below, 5513 is returned and 137 stored; above, 192000 and 0; the stored count is in range exactly when the request was |
| HdaDevice.ChooseFormat | kernel-src/io/audio/hda.c:1311-1338 | (definition) U16_LE gives 16 unsigned bits, S16_LE 16 signed bits, anything else U8 with the signedness untouched |
| HdaDevice.FormatChosen | kernel-src/io/audio/hda.c:1311-1338 | the two 16-bit formats are honoured, anything else gives unsigned 8-bit; the signedness changes only on a 16-bit format |
| HdaDevice.FragmentCount | kernel-src/io/audio/hda.c:1349-1351 | (definition) a fragment count of 0 becomes 2 |
| HdaDevice.DefaultFragmentSize | kernel-src/io/audio/hda.c:1352-1356 | (definition) 50 times the byte rate, taken in 32 bits, divided by 1000 |
| HdaDevice.DefaultFragmentExact | kernel-src/io/audio/hda.c:1352-1356 | for storable parameters the 32-bit byte rate does not wrap, and the fragment is 50 whole milliseconds of it, an int at most a twentieth of the rate |
| HdaDevice.ByteRateFits | kernel-src/io/audio/hda.c:1353 | the byte rate of storable parameters is below 2^32 |
| HdaDevice.FiftyMilliseconds | kernel-src/io/audio/hda.c:1354-1355 | 50 ms of a 32-bit byte rate is an int and at most a twentieth of it |
| HdaDevice.DefaultBuffer | kernel-src/io/audio/hda.c:1349-1356 | the start parameters give two 8800-byte fragments |
| HdaDevice.InitialCount | kernel-src/io/audio/hda.c:1409-1415 | (definition) 2 pages below two pages of fragment, otherwise the fragment size in whole pages |
| HdaDevice.InitialCountBounds | kernel-src/io/audio/hda.c:1409-1415 | at least two pages are copied, within one fragment from two pages on, and fewer than 256 exactly when the fragment is below the buffer length |
| HdaDevice.SizeToInt | kernel-src/io/audio/hda.c:1547 | a free space up to INT_MAX is returned as is, and a larger 32-bit one turns negative |
| HdaDevice.TryLock | kernel-src/io/audio/hda.c:1551-1557 | (definition) a positive count is taken down by one with success; a zero count is left with failure |
| HdaDevice.LockExclusive | kernel-src/io/audio/hda.c:1551-1563 | while closes come from holders at most one opener holds the device |
| HdaDevice.OpenSucceedsWhenFree | kernel-src/io/audio/hda.c:1553-1556 | an open succeeds exactly when nobody holds the device |
| HdaDevice.UnbalancedCloseAdmitsTwo | kernel-src/io/audio/hda.c:1561 | an unbalanced close lets two opens succeed |
| HdaDevice.OutPath.constructor | kernel-src/io/audio/hda.c:836-845 | a path starts at 44.1 kHz, 16 bits and 2 channels, marked changed |
| HdaDevice.OutPath.SetRate | kernel-src/io/audio/hda.c:1272-1288 | the clamped rate is returned and stored, and the path is marked changed when it differs |
| HdaDevice.OutPath.SetChannels | kernel-src/io/audio/hda.c:1290-1306 | the replaced count is returned, stored truncated, and marks the path changed when it differs |
| HdaDevice.OutPath.SetFmt | kernel-src/io/audio/hda.c:1308-1339 | the chosen format is returned, its size stored and marked changed when it differs, and its signedness stored |
| HdaDevice.SettersSettle | kernel-src/io/audio/hda.c:1272-1339 | setting the returned rate or format again returns and stores the same |
| HdaDevice.DataPrefix | kernel-src/io/audio/hda.c:1379-1403 | the data of a prefix of the chunks is a prefix of their data |
| HdaDevice.DataSnoc | kernel-src/io/audio/hda.c:1379-1403 | one more chunk adds its bytes behind the others |
| HdaDevice.DataAt | kernel-src/io/audio/hda.c:1379-1403 | the data up to an offset inside a chunk is a prefix of all the data |
| HdaDevice.IteratorAdvance | kernel-src/io/audio/hda.c:1397-1401 | the iterator stays at the first byte not copied, or moves to the next chunk, having passed exactly the bytes copied |
| HdaDevice.ChunkPassed | kernel-src/io/audio/hda.c:1397-1403 | passing a whole chunk passes the data of the chunks up to it |
| HdaDevice.Codec.constructor | kernel-src/io/audio/hda.c:545-558 | no active path and the exclusive lock free |
| HdaDevice.Codec.SetActivePath | kernel-src/io/audio/hda.c:849-932 | the path's commands are sent and it becomes the active path |
| HdaDevice.Codec.SetActiveParams | kernel-src/io/audio/hda.c:1152-1169 | the converter's commands are sent and SDnFMT gets the format word |
| HdaDevice.Codec.ResumeUnlocked | kernel-src/io/audio/hda.c:1498-1521 | the path becomes active if it was not, its parameters are programmed if changed and the flag cleared, and the stream runs |
| HdaDevice.Codec.GetBufferAvail | kernel-src/io/audio/hda.c:1537-1549 | the free space is reported through the int cast |
| HdaDevice.Codec.Open | kernel-src/io/audio/hda.c:1551-1557 | the open takes the lock or returns EBUSY |
| HdaDevice.Codec.Close | kernel-src/io/audio/hda.c:1559-1563 | the close releases the lock and returns 0 |
| HdaDevice.Codec.SetUpBuffer | kernel-src/io/audio/hda.c:1348-1359 | a FIFO without capacity gets fragment count times fragment size bytes, the defaults filled in on the path |
| HdaDevice.Codec.StartIfReady | kernel-src/io/audio/hda.c:1405-1430 | a stopped stream with a fragment buffered gets its first pages and the position past them, the path's activation and parameter commands are sent when they changed, SDnFMT follows, RUN is set and the rest of SDnCTL kept; a start needing 256 pages or more reports an overrun; otherwise nothing changes |
| HdaDevice.Codec.CopyChunk | kernel-src/io/audio/hda.c:1379-1403 | a part of the chunk goes into the FIFO and the iterator moves past it, so the FIFO still holds a prefix of the data |
| HdaDevice.Codec.Queue | kernel-src/io/audio/hda.c:1341-1441 | the bytes that entered the FIFO are the first `done` bytes of the data; 0 is returned exactly when all went in, with the size stored; otherwise EINTR after an interruption, or a page's fault |

## Left out

- Register access, DMA and the polling loops of the controller and stream resets are not modelled. The reset of `hdapause` takes the SRST polls as ending at once.
- Semaphores, spinlocks, mutexes and interrupt masking are not modelled, since the model is sequential.
  - A blocked `semaphore_wait` on `entrysem` becomes the precondition of `Controller.PostVerb` that a slot is free.
  - `hdaresume` is `ResumeUnlocked` under the stream mutex.
- Interrupts run only while a writer waits, as the schedule given to the waits says. An interrupt arriving between two steps of `hdaqueue` or `hdapause` is not modelled.
- semaphore.h, ringbuffer.h and iovec.h are not part of this model:
  - the FIFO is a bounded byte sequence;
  - the user iovec is a sequence of page chunks and faults;
  - `semaphore_signal_limit` is taken as raising the count up to its limit.
- Only the first output stream, `outstreams[0]`, is modelled. It is the only one the driver plays on.
- Threads are opaque identifiers. Waking is the list of identifiers woken.
- `hdaenumeratecodec` is modelled only in part:
  - modelled: the connection-list decode, the initial path parameters and the free exclusive lock;
  - not modelled: the parameter queries, the Realtek coefficient quirk, the name tables and the OSS registration.
- `initcontroller` is modelled only in part:
  - modelled: the ring-size choice, the ring pointers, the waiter table, `entrysem` and the stream descriptor set-up;
  - not modelled: PCI, MSI, page allocation and the codec scan.
- Printing is not modelled.
- HdaPaths.WidgetTable: each widget has fewer than 256 connections. With more, the uint8_t `connindex` would wrap and the search might not end.
- HdaConnections.DecodeConnectionList: the selector memory that `alloc` leaves is a parameter, since the source never initialises it for range elements.
- HdaCommandRing.Controller.HandleInterrupt: the input, output and bidirectional stream counts are required to total at most 30. INTSTS has 30 stream-interrupt bits (bits 0-29) in the Intel HDA register layout, so for a conforming controller the source's loop never goes past them.
- HdaCommandRing.Controller.HandleInterrupt: the reported write pointer is required to be below the RIRB size. Otherwise the walk in the source never meets it.
- HdaDevice.Codec.SetUpBuffer: the stored fragment count and size are required to be non-negative, with a product that fits in an int. These are the values the SNDCTL_DSP_SETFRAGMENT decode of oss.c yields for sensible requests.
- HdaDevice.Codec.Queue:
  - it states byte conservation and the outcome, not the exact interleaving of copies and waits;
  - a start needing 256 pages or more ends as `BdlOverrun`. With more than 256 the source's copy runs past the buffer descriptor list. With exactly 256 the copy fits, but the position it sets is one past the last page, so the source's next completion interrupt reads past the list.
- HdaDevice.Codec.StartIfReady: for exactly 256 initial pages, the source copies them, starts the stream and returns. The model reports an overrun without copying, because the position the source then sets lies outside the list the rest of the model keeps it in.
