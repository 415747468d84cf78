# Verification of the streaming and memory components

A Dafny model of the hardest SystemVerilog modules of the library, with proofs about whole runs of them.

Every component is a clocked state: one step is one clock edge, and all registers are updated from their old
values. Inputs and back-pressure are arbitrary in every cycle. Each file has the same three layers:

* a `datatype` for the state and a step function (`Step`, `Next`, ...), with functions over runs for what crossed
  the ports (`Accepted`, `Emitted`, ...);
* lemmas about every run, most of them a conservation law (what was inside plus what came in is what went out plus
  what is then inside), and what follows from it;
* a `class` holding the hardware's registers, whose `Clock` method updates them the way the source's clocked blocks
  do and is proved to take exactly the step the lemmas are about.

| component | files |
|---|---|
| clock-domain crossings | `Cdc.dfy` |
| packet FIFO between two clocks | `PacketFifoAsync.dfy`, `Pointers.dfy` |
| single-clock packet FIFO | `PacketFifo.dfy` |
| byte packer | `PackerAlign.dfy`, `PackerCombine.dfy`, `Packer.dfy`, `PackerNulls.dfy` |
| width converter | `WidthConverter.dfy` |
| Ethernet framing | `AxisJoiner.dfy`, `EthFramer.dfy`, `EthFramerWide.dfy`, `EthFramerWidePacked.dfy`, `TaggerOutlet.dfy`, `AxisHeaderTagger.dfy`, `EthDeframer.dfy`, `EthLoopback.dfy`, `EthLoopbackProgress.dfy` |
| SDRAM controller | `SdramController.dfy`, `SdramTiming.dfy`, `SdramService.dfy`, `SdramMemory.dfy` |
| GMII transmitter | `Crc.dfy`, `GmiiTxMac.dfy`, `GmiiTxPath.dfy` |
| Internet checksum | `IpChecksum.dfy`, `IpHeader.dfy`, `IpChecksumBytes.dfy`, `IpHeaderGen.dfy` |
| UART | `Uart.dfy` |
| shared vocabulary | `Axis.dfy`, `ByteStream.dfy`, `Bits.dfy` |

What a byte stream means is independent of its width and of where its null bytes are: `ByteStream` reads it as a
sequence of tokens, the kept bytes in order and an end mark after each word that asserts last. A token stream has
only one form in full words (`PackedFormIsUnique`), so laws about tokens decide beats as well.

A stream source that has to keep a word on offer until it is taken (section 2.2.1 of the AMBA 4 AXI4-Stream
specification, ARM IHI 0051A) is modelled as the list of words it has to send; in each cycle it may offer the first
of them or be idle.

Findings, where the code does not do what one might expect of it:

* Narrow to wide, a last word that leaves the wide word short is taken while the sink stalls, and its packet end is
  lost; and where the narrow width does not divide the wide one, bytes of the last slot beyond the wide word are lost.
  Exactly these two lose anything (`WidensTheStreamIff`, `TwoPacketsMerge`, `FourthByteIsCut`). Wide to narrow to wide
  can never meet either case.
* The four-byte checksum presents its result for one cycle only, and a result that is not taken stays in the
  accumulators: the results are the checksums if and only if every one is taken in that cycle
  (`ResultsAreChecksums4Iff`, and a failing run in `SecondResultIsOff`). `ResultsAreShown` says what every result of any
  run is, and `RightAfterMissesIff` which of them are right all the same, both in the words of the packets.
* The header generator takes that result only while its output stands at word 2. A sink that holds the first two words
  off for too long gets a wrong header (`LateSinkHeaderRightIff`, and a failing run in `LateHeaderIsWrong`). And with a
  sink that never stalls every header after the first counts the addresses of the request before it, so that it is right
  if and only if those add up to its own modulo 65535 (`HeadersAfterTheFirstRightIff`, and a failing run in
  `SecondHeaderIsWrong`): the feeding goes on while words 3 and 4 leave.
* Its output withdraws word 2 if it is not taken in the cycle the checksum is there, where section 2.2.1 of the AXI4-Stream
  specification wants a word to stay on offer until it is taken (`StaysOnOfferIff`). A sink whose ready is valid of the
  cycle before never gets a header (`OneBehindGetsNone`).
* A single-clock packet FIFO locks up exactly when one unfinished packet fills it, until a drop; the two-clock one does
  so too, and there not even a drop gets in (`LockedUpIff` of both; `LongPacketFills` and `LongPacketLocksUp` get
  there).
* The header tagger splits the right word if and only if the header does not end in the first lane of a word, or is a
  single byte of a wider word (`SplitsRightIff`): the rounded-up quotient is taken of one byte less than the header has.
  On one lane, the default, it is never the right word.
* On a stream wider than its header the framer takes a header that the packer is not ready for, never hands it over, and
  stands still for ever. It is right if and only if that never happens (`FramesUnlessStalled`), and a sink that stalls is
  enough for it to happen (`BackPressureJams`).
* A UART whose number of cycles per bit is a power of two never ends a bit (`SameRateWorksIff`).
* A UART receiver reset for a single cycle after power-up takes the zero in its synchroniser for a start bit and reports
  a word nobody sent (`ShortResetReports`); its valid line is not reset at all (`StaleWord`).
* The SDRAM column must fit below address line 10, because the column is put on the address lines after that line
  is cleared. If it does not, a READ can make the device close the row behind the controller's back
  (`AutoPrechargeNeverIff`, `StaysAgreedIff`, and a failing run in `HighReadTwice`). And the CAS latency must fit the
  three bits it has in the mode word, or reads come back too early (`ModeWordIsRight`, and a failing run in
  `CutLatencyLosesReads`).
* The GMII transmitter ends its data when the last word has been taken into its register, which is a cycle before that
  word is sent: a packet alone is carried whole if and only if it has at least two and at most 64 bytes
  (`PacketIsCarriedIff`). The last byte of a longer one is the first of the next frame (`LastByteComesLate`), and a short
  packet right behind another goes into the padding of its frame (`NextPacketPads`). The stream as such is sent in order
  and without loss (`OneFrame`).
* The packer keeps the byte stream and the packet ends even for last on an all-null word, the case
  `synth/axis/axis_packer.sv:17` calls unhandled (`PacksTheStream`). It makes a null word of it if and only if the bytes
  of its packet before it have filled whole words, none included (`NullWordsAre`, and a run in `NullWordComesOut`);
  otherwise the last goes with the bytes that are waiting.
* An SDRAM controller whose row must close before its own delay is over never serves a request (`ReadsServedIff`).
* `synth/network/eth_framer.sv:8-11` lists the source address first; the code (line 93) sends the destination first,
  and the model follows the code.

## Model

| member | source | states |
|---|---|---|
| Cdc.ExactlyOnce | synth/other/cdc_vector.sv:23-65 | any interleaving of the two clocks: the vectors accepted are the vectors delivered, each once and in order, then at most one still under way; the output shows the last one delivered |
| Cdc.ChangePointTravels | synth/other/cdc_vector.sv:41-67 | for any number of synchroniser stages the ring of toggle and flops keeps at most one change point, whose place is the number of hops left |
| Cdc.DistanceShrinks | synth/other/cdc_vector.sv:23-67 | with an ever-valid, non-decreasing sender, each stretch in which both clocks rise brings the receiver strictly closer to showing a value that large |
| Cdc.ShownWithinBound | synth/other/cdc_vector.sv:23-67 | it is shown after at most 3n+4 such stretches |
| Cdc.CdcVector.Pulses | synth/other/cdc_pulse.sv:14-21 | each edge detector fires exactly when the change point stands in front of its flop, so the capture pulse and the ready line come at the right hop |
| Cdc.CdcVector.Clock | synth/other/cdc_vector.sv:23-67 | the registers keep the ring invariant (ready exactly when nothing is under way, the held register stable until captured) and move the link one step |
| Cdc.CdcPulse.Clock | synth/other/cdc_pulse.sv:14-21 | the synchroniser and the flop behind it shift by one |
| Cdc.CdcSync.Clock | synth/other/cdc_sync.sv:13-33 | the chain shifts by one and takes the input in |
| PacketFifoAsync.Step | synth/axis/axis_packet_fifo_async.sv:59-113 | every step keeps: read pointer seen by the writer <= read pointer <= committed pointer seen by the reader <= committed pointer <= write pointer <= read pointer seen by the writer + depth |
| PacketFifoAsync.RunConserves | synth/axis/axis_packet_fifo_async.sv:59-133 | from any reachable state, unread beats plus what the transfers commit are the beats emitted plus the unread ones; the uncommitted ones are those of the packet under way |
| PacketFifoAsync.EmitsCommittedPrefix | synth/axis/axis_packet_fifo_async.sv:59-133 | from reset, for every interleaving and any back-pressure, the output is a prefix of the committed beats: nothing lost, duplicated, reordered or shown before its packet is committed |
| PacketFifoAsync.CommitBecomesVisible | synth/axis/axis_packet_fifo_async.sv:32-43 | a committed packet is seen by the reader after at most 3n+4 stretches in which both clocks rise |
| PacketFifoAsync.ValidComesFirst | synth/axis/axis_packet_fifo_async.sv:88-113 | whatever the sink does, a visible beat is on show after one output edge, and stays until it is taken |
| PacketFifoAsync.VisibleDrains | synth/axis/axis_packet_fifo_async.sv:88-113 | every sink that answers valid, however late and even if it holds ready low until it sees it, gets everything visible, within a number of output edges computed from how late it answers |
| PacketFifoAsync.SpaceReturns | synth/axis/axis_packet_fifo_async.sv:32-43 | space the reader has freed is known to the writer after at most 3n+4 stretches in which both clocks rise |
| PacketFifoAsync.AllSpaceReturns | synth/axis/axis_packet_fifo_async.sv:32-113 | from any reachable state some run with an idle source ends with the writer knowing that every committed beat has been read |
| PacketFifoAsync.FilledByOnePacketLocksUp | synth/axis/axis_packet_fifo_async.sv:60-82 | once the packet under way fills the memory nothing is accepted any more, not even a drop |
| PacketFifoAsync.LockedUpIff | synth/axis/axis_packet_fifo_async.sv:32-113 | at the end of any run from reset, for any interleaving: nothing is ever accepted again if and only if what was accepted ends in as many beats of one packet, neither complete nor dropped, as the memory holds |
| PacketFifoAsync.LongPacketFills | synth/axis/axis_packet_fifo_async.sv:60-82 | a source that offers beats of one packet until the memory is full gets there, whatever the sink and its clock do, if the writer knows of all that was read |
| PacketFifoAsync.LongPacketLocksUp | synth/axis/axis_packet_fifo_async.sv:59-113 | from reset, as many such beats as the memory holds lock the FIFO up for ever |
| PacketFifoAsync.TestsAreExact | synth/axis/axis_packet_fifo_async.sv:60-92 | the wrapped full and empty tests on stale pointers decide what the unbounded counts say |
| PacketFifoAsync.WriteKeepsUnread | synth/axis/axis_packet_fifo_async.sv:118-133 | no write lands in a memory cell that holds an unread beat |
| PacketFifoAsync.RegStepShowsStep | synth/axis/axis_packet_fifo_async.sv:59-133 | the machine with wrapped pointers, memory and two crossings refines the unbounded one, tick by tick |
| PacketFifoAsync.AsyncPacketFifo.ClockOwn | synth/axis/axis_packet_fifo_async.sv:59-133 | the registers and the memory of the module itself after a tick of either clock or both |
| PacketFifoAsync.AsyncPacketFifo.Clock | synth/axis/axis_packet_fifo_async.sv:32-133 | the whole module runs the unbounded machine |
| PacketFifo.RunConserves | synth/axis/axis_packet_fifo.sv:39-98 | unread beats plus the beats of the complete packets without a drop are the beats emitted plus the unread ones |
| PacketFifo.EmitsKeptPackets | synth/axis/axis_packet_fifo.sv:39-98 | from reset, the output is a prefix of the beats of exactly the complete packets in which drop was never asserted on an accepted beat |
| PacketFifo.ValidComesFirst | synth/axis/axis_packet_fifo.sv:83-96 | whatever the sink does, the beat of a complete packet is on show after the next clock, and stays until it is taken |
| PacketFifo.UnreadDrains | synth/axis/axis_packet_fifo.sv:83-96 | every sink that answers valid, however late and even if it holds ready low until it sees it, gets all that can be read in a time computed from how late it answers |
| PacketFifo.FullUnblocksIff | synth/axis/axis_packet_fifo.sv:41-96 | a full FIFO whose sink takes a beat is ready again if and only if the unfinished packet does not fill the memory |
| PacketFifo.FilledByOnePacketLocksUp | synth/axis/axis_packet_fifo.sv:41-82 | if it does fill it, nothing is accepted any more until a drop |
| PacketFifo.LongPacketFills | synth/axis/axis_packet_fifo.sv:41-82 | a source that offers as many beats of one packet in a row as the memory holds gets there, whatever the sink does |
| PacketFifo.LockedUpIff | synth/axis/axis_packet_fifo.sv:41-96 | at the end of any run from reset: no beat is ever accepted again without a drop if and only if what was accepted ends in as many beats of one packet, neither complete nor dropped, as the memory holds |
| PacketFifo.DropGetsIn | synth/axis/axis_packet_fifo.sv:43-81 | a drop is accepted also when the FIFO is full, and frees what the packet under way held |
| PacketFifo.DropUnlocks | synth/axis/axis_packet_fifo.sv:43-81 | one drop ends a lock-up |
| PacketFifo.PacketFifo.ClockReadPort | synth/axis/axis_packet_fifo.sv:83-96 | memory and read pointer give the queue's first beat to the output register |
| PacketFifo.PacketFifo.ClockWritePort | synth/axis/axis_packet_fifo.sv:56-81 | memory, pointers and the latched drop flag take one transfer as the queue of packets does |
| PacketFifo.PacketFifo.Clock | synth/axis/axis_packet_fifo.sv:45-98 | the class with wrapped pointers and memory runs the queue machine, both ports deciding on the old state |
| PackerAlign.FindLowestZero | synth/axis/axis_packer.sv:112-125 | the downward loop returns the index of the lowest null lane, or all ones if there is none |
| PackerAlign.AlignKeepsBytes | synth/axis/axis_packer.sv:150-183 | an align stage keeps the kept bytes of a word and their order |
| PackerAlign.AlignSettles | synth/axis/axis_packer.sv:150-183 | after stage k the keep mask is packed or its top k+1 lanes are null, which is what lets the next stage leave them alone |
| PackerAlign.ChainCompacts | synth/axis/axis_packer.sv:43-183 | for every width, the N-1 stages together are the stable compaction of a word's kept bytes |
| PackerAlign.AlignStage.AlignWord | synth/axis/axis_packer.sv:112-183 | the lane-by-lane shift computes the aligned word |
| PackerAlign.AlignStage.Clock | synth/axis/axis_packer.sv:134-183 | the stage's register loads the aligned word when it is free or being taken |
| PackerCombine.CombineWaits | synth/axis/axis_packer.sv:220-313 | a nonzero base index means a full register without last whose topmost bytes are exactly the first bytes of the waiting word; every edge keeps that |
| PackerCombine.CombineConserves | synth/axis/axis_packer.sv:198-313 | register plus the unread rest of the waiting word is what leaves plus what is then in both |
| PackerCombine.CombineStage.NextLanes | synth/axis/axis_packer.sv:265-313 | the lane registers after the edge hold the expected bytes, packed |
| PackerCombine.CombineStage.Clock | synth/axis/axis_packer.sv:198-313 | the stage's registers take the step of the abstract accumulator |
| Packer.PipeConserves | synth/axis/axis_packer.sv:37-85 | one edge of the chain of align stages loses and reorders nothing, whatever stages are full |
| Packer.RunConserves | synth/axis/axis_packer.sv:37-314 | from any reachable state, what was inside plus what enters is what leaves plus what is then inside |
| Packer.PacksTheStream | synth/axis/axis_packer.sv:19-314 | from reset, for any width and back-pressure, the kept bytes and packet ends accepted are those emitted and those inside, in order |
| Packer.Emitted | synth/axis/axis_packer.sv:199-218 | every word emitted is full unless it ends a packet |
| Packer.NoNullWords | synth/axis/axis_packer.sv:17-314 | without last on an all-null input word no null word is emitted |
| PackerNulls.NullWordsAre | synth/axis/axis_packer.sv:17-313 | any run from reset: the null words emitted and on their way are as many as the words accepted with last and no byte whose packet had filled whole words before them |
| PackerNulls.NullWordComesOut | synth/axis/axis_packer.sv:17-313 | for every width, a run that emits one |
| PackerNulls.QueueMoves | synth/axis/axis_packer.sv:37-85 | one edge of the pipe is a queue of words without their null lanes: the oldest leaves if taken, what enters comes behind the youngest |
| Packer.PackedPassesThrough | synth/axis/axis_packer.sv:19-314 | a packed stream, once it is all out, has come out as the same words |
| Packer.Drains | synth/axis/axis_packer.sv:147-313 | if nothing more comes in and the sink is ready, after a computed number of cycles all that is left inside is a part of a word of an unfinished packet |
| Packer.EndedPacketsComeOut | synth/axis/axis_packer.sv:147-313 | so once the packets have ended, everything comes out |
| Packer.WorkMoves | synth/axis/axis_packer.sv:43-314 | any input and sink: the work left grows only by what enters, and falls in every cycle in which no whole word waits for the sink |
| Packer.EmptiesAnyhow | synth/axis/axis_packer.sv:43-314 | any sink, also one that waits for valid: the pipe is empty after as many cycles as there was work, not counting those in which a word on show waits |
| Packer.ShownStays | synth/axis/axis_packer.sv:198-216 | a word on show stays until it is taken |
| Packer.ReadyIff | synth/axis/axis_packer.sv:43-110 | the input is ready if and only if a stage is empty or the last one's word is taken |
| Packer.AxisPacker.ClockPipe | synth/axis/axis_packer.sv:43-85 | the stages' registers move one step, and the ready line runs back through them |
| Packer.AxisPacker.Clock | synth/axis/axis_packer.sv:19-90 | the chained stages and the combine stage take the step of the whole packer |
| WidthConverter.ShapeOf | synth/axis/axis_width_converter.sv:24-39 | the number of slots is the quotient rounded up, so the padded word holds the wide one with less than a slot to spare |
| WidthConverter.SlotLane | synth/axis/axis_width_converter.sv:53-69 | lane i of a slot is the lane of the word it stands for, and null and zero beyond the word |
| WidthConverter.DownConserves | synth/axis/axis_width_converter.sv:53-87 | wide to narrow, any widths and back-pressure: the words emitted and those still to come are the slots of the source's words |
| WidthConverter.CutKeepsStream | synth/axis/axis_width_converter.sv:57-71 | the slots carry the words' kept bytes and packet ends, whether or not the narrow width divides the wide one |
| WidthConverter.NarrowsTheStream | synth/axis/axis_width_converter.sv:53-87 | from reset, the source's bytes and packet ends are those emitted and those to come |
| WidthConverter.UpConserves | synth/axis/axis_width_converter.sv:90-129 | narrow to wide, any two widths: bytes collected plus bytes and ends merged in are the stream emitted plus the bytes then collected, although unused register lanes hold anything |
| WidthConverter.WidensTheStreamIff | synth/axis/axis_width_converter.sv:90-129 | any two widths: the stream is preserved if and only if no last word that leaves the wide word short was taken while the sink was not ready, and no word went into the last slot with bytes in lanes that the wide word does not have |
| WidthConverter.FillsAnyhow | synth/axis/axis_width_converter.sv:90-129 | collecting does not wait for the sink: the slots below the last fill in as many cycles, and then the next word makes valid high |
| WidthConverter.ValidIgnoresReady | synth/axis/axis_width_converter.sv:92-95 | valid does not wait for ready |
| WidthConverter.TwoPacketsMerge | synth/axis/axis_width_converter.sv:93-127 | a concrete run in which two packets come out as one |
| WidthConverter.FourthByteIsCut | synth/axis/axis_width_converter.sv:29-97 | two bytes into three, from reset: the fourth byte of a packet is lost |
| WidthConverter.PairIsIdentity | synth/axis/axis_width_converter.sv:53-129 | wide to narrow to wide, any two widths, gives back the very words (data, keep and last) under any back-pressure |
| WidthConverter.WideToNarrow.Clock | synth/axis/axis_width_converter.sv:53-87 | lines and counter of the wide-to-narrow branch |
| WidthConverter.NarrowToWide.Clock | synth/axis/axis_width_converter.sv:90-129 | lines, counter and collecting registers of the narrow-to-wide branch |
| AxisJoiner.InTurnStep | synth/axis/axis_joiner.sv:34-62 | taking a word of the selected stream takes the first word of the packets in turn; only the last stream keeps its packet end |
| AxisJoiner.JoinsInTurn | synth/axis/axis_joiner.sv:31-62 | any number of streams and any back-pressure: what comes out is a packet of each stream in turn, joined to one packet a round |
| AxisJoiner.Joiner.Clock | synth/axis/axis_joiner.sv:34-50 | the stream counter moves on at a last beat |
| EthFramer.FrontNext | synth/network/eth_framer.sv:39-108 | the state register and the joiner's counter never get out of step, and the header converter rests while the payload passes |
| EthFramer.FrontConserves | synth/network/eth_framer.sv:43-108 | header converter, gate and joiner emit each packet's header words and then its payload words |
| EthFramer.HeaderTokens | synth/network/eth_framer.sv:81-95 | the header words carry the 14 header bytes and no packet end |
| EthFramer.HeaderLayout | synth/network/eth_framer.sv:81-95 | the 14 bytes are destination, source and ethertype, high byte first |
| EthFramer.IdleSource | synth/network/eth_framer.sv:39-108 | while the source offers nothing, nothing leaves and nothing changes |
| EthFramer.FramesTheWords | synth/network/eth_framer.sv:39-130 | every stream width up to 14, any packets and back-pressure: the words the joiner hands over are those of header and payload of each packet in turn, and as bytes and packet ends they are the frames; without a packer that is the output |
| EthFramer.FramesTheStream | synth/network/eth_framer.sv:39-130 | with the packer, for every stream width that does not divide 14: header and payload of each packet, as one packet, are what is emitted and what is still to come |
| EthFramer.Emitted | synth/network/eth_framer.sv:110-122 | every word emitted is full unless it ends a packet, and never null |
| EthFramerWide.FrontConserves | synth/network/eth_framer.sv:39-108 | streams wider than 14 bytes: one edge hands over bytes and packet ends without loss, or jams the framer, exactly if a header is offered while the joiner's sink is not ready |
| EthFramerWide.IdleSource | synth/network/eth_framer.sv:39-108 | while the source offers nothing, nothing leaves and no header is taken |
| EthFramerWide.FramesUnlessStalled | synth/network/eth_framer.sv:39-108 | any run from reset: the frames are what was handed over and what is still to come if and only if that never happened; if it has, just the header's bytes are missing, and nothing is ever handed over again |
| EthFramerWide.OneStallJams | synth/network/eth_framer.sv:39-108 | a failing run of one cycle |
| EthFramerWidePacked.RunConserves | synth/network/eth_framer.sv:39-122 | with the packer behind the joiner: the framer jams if and only if a header is offered while the packer is not ready, and until then the frames are what was emitted and what is still to come |
| EthFramerWidePacked.BackPressureJams | synth/network/eth_framer.sv:39-122 | for every odd width above fourteen, a failing run from reset: the packer's own back-pressure under a stalled sink jams the framer for ever |
| EthFramerWide.FrontEnd.Clock | synth/network/eth_framer.sv:39-108 | state register, widening header converter and joiner take that step |
| EthFramer.FrontEnd.Clock | synth/network/eth_framer.sv:39-108 | the registers in front of the packer take that step |
| EthFramer.DirectFramer.Clock | synth/network/eth_framer.sv:20-130 | the whole framer without a packer takes that step |
| EthFramer.Framer.Clock | synth/network/eth_framer.sv:20-132 | the whole framer with its packer takes its step |
| AxisHeaderTagger.SplitsRightIff | synth/axis/axis_header_tagger.sv:24-31 | for all widths and header lengths: every stream is stripped as a tagger that counts the header's words would, if and only if the header does not end in the first lane of a word or is one byte of a wider word; otherwise one word too few is counted |
| TaggerOutlet.StepConserves | synth/axis/axis_register.sv:22-46 | packer or register, one edge: the tokens inside and taken are those given and then inside |
| TaggerOutlet.LoadsAnyhow | synth/axis/axis_register.sv:22-46 | the register takes a word whenever it is empty, whatever the sink does, and holds it until it is taken |
| TaggerOutlet.AxisRegister.Clock | synth/axis/axis_register.sv:22-46 | the register that stands in the packer's place |
| AxisHeaderTagger.StepConserves | synth/axis/axis_header_tagger.sv:37-88 | each edge keeps, for any width, header length and input, with packer or register: it holds payload of one packet only, none while the header is read, and its packet end exactly while flushing; payload tokens are conserved, tagged with the header shown |
| AxisHeaderTagger.RunConserves | synth/axis/axis_header_tagger.sv:24-104 | from any such state, the accepted words without their headers, each token tagged with its packet's header, are what comes out beside the header lines and what is inside |
| AxisHeaderTagger.StripsHeaders | synth/axis/axis_header_tagger.sv:24-104 | the same from reset, for any packets, also such as end before their header does |
| AxisHeaderTagger.RoomAccepts | synth/axis/axis_header_tagger.sv:66-83 | words of the header are let in whatever the sink does, others into an empty outlet, and none beyond the header while a packet is still to leave |
| AxisHeaderTagger.EmittedPacked | synth/axis/axis_header_tagger.sv:90-104 | where the packer is built, every word emitted is full unless it ends a packet, and if no packet ends before its payload begins, never null |
| AxisHeaderTagger.TagRegisters.Clock | synth/axis/axis_header_tagger.sv:40-64 | counter, flushing flag and header registers; the output's end wins over an accepted word |
| AxisHeaderTagger.HeaderTagger.Clock | synth/axis/axis_header_tagger.sv:24-104 | lines and registers of the tagger with its packer take its step |
| AxisHeaderTagger.PlainTagger.Clock | synth/axis/axis_header_tagger.sv:24-118 | lines and registers of the tagger with a register take its step |
| EthDeframer.TaggerIsBuilt | synth/network/eth_deframer.sv:24-38 | for 14 bytes on four lanes the tagger counts the words the header takes up |
| EthDeframer.DeframedHeader | synth/network/eth_deframer.sv:40-42 | the field extraction undoes the framer's header layout, and the ethertype travels high byte first |
| EthLoopback.WordIsFramed | synth/axis/axis_header_tagger.sv:68-88 | every word at the front of a stream of frames is one the deframer expects there, and it takes from it exactly the payload bytes |
| EthLoopback.LinkFramed | synth/network/eth_framer.sv:110-122 | what the framer offers on the link is always framed as the deframer needs it |
| EthLoopback.RunConserves | synth/network/eth_deframer.sv:21-42 | framer feeding deframer: payload still to come is what comes out and what is still to come |
| EthLoopback.DeframingUndoesFraming | synth/network/eth_deframer.sv:21-42 | for any packets, source and back-pressure, the output, byte by byte and end by end with the addresses and ethertype shown beside it, is the beginning of what was sent with those of its own packet |
| EthLoopback.PackedPayloadsReturn | synth/network/eth_framer.sv:43-130 | once everything is out, packed payloads have come out as the very words that went in |
| EthLoopbackProgress.IdleMeansDone | synth/axis/axis_header_tagger.sv:37-88 | when nothing crosses the link though source and sink are ready, and neither packer is busy, nothing of what was sent is left inside: the flushing gate never closes for good |
| EthLoopbackProgress.EffortShrinks | synth/network/eth_deframer.sv:21-42 | every cycle in which the source offers and the far end is ready brings the pair closer to that |
| EthLoopbackProgress.EverythingComesOut | synth/network/eth_deframer.sv:21-42 | framer feeding deframer, from reset: after a number of cycles computed from the packets, all that was sent has come out, each byte and end beside the fields of its own packet |
| EthLoopbackProgress.PackedPayloadsComeOut | synth/network/eth_framer.sv:43-130 | and packed payloads as the very words that went in |
| SdramController.WbSdramController.ClockRefresh | synth/wishbone/wb_sdram_controller.sv:62-81 | the refresh requester's counter and request flag |
| SdramController.WbSdramController.ClockTimers | synth/wishbone/wb_sdram_controller.sv:168-191 | the shift register and the four timers run in every cycle |
| SdramController.WbSdramController.Clock | synth/wishbone/wb_sdram_controller.sv:158-336 | the bus is decided from the old state, and the registers take the controller's step |
| SdramTiming.CommandsAreSpaced | synth/wishbone/wb_sdram_controller.sv:158-336 | in every run, any two commands keep their spacing: ACTIVE to others > T_RCD and to PRECHARGE > T_RAS_min, WRITE to PRECHARGE > T_WR, PRECHARGE to others > T_RP, REFRESH to others > T_RC, mode set to others > T_RSC |
| SdramTiming.ReadDataAfterCasLatency | synth/wishbone/wb_sdram_controller.sv:104-169 | read_dq_valid is high exactly T_CL cycles after a READ |
| SdramTiming.NoWriteDuringRead | synth/wishbone/wb_sdram_controller.sv:310-331 | no WRITE within T_CL cycles after a READ |
| SdramTiming.EightRefreshesFirst | synth/wishbone/wb_sdram_controller.sv:146-232 | at least eight AUTO_REFRESH commands precede any ACTIVE |
| SdramTiming.RequestAdvances | synth/wishbone/wb_sdram_controller.sv:262-336 | a pending refresh request is cleared only by an AUTO_REFRESH, and every cycle before brings it one closer |
| SdramTiming.WaitBounded | synth/wishbone/wb_sdram_controller.sv:158-253 | that is never further away than a bound computed from the timing parameters |
| SdramTiming.NoRefreshIsLost | synth/wishbone/wb_sdram_controller.sv:62-81 | if the interval exceeds the bound, no request is ever made while another is pending, so every one made is answered by an AUTO_REFRESH but for the one pending |
| SdramTiming.AnsweredOnTime | synth/wishbone/wb_sdram_controller.sv:158-336 | a request pending in any cycle is answered by an AUTO_REFRESH exactly its computed wait later, whatever else is asked for meanwhile |
| SdramTiming.RequestsAreRegular | synth/wishbone/wb_sdram_controller.sv:62-81 | one request is made every interval |
| SdramTiming.RowCloses | synth/wishbone/wb_sdram_controller.sv:155-308 | a row stays open at most T_RAS_max + T_WR + 1 cycles, if T_RAS_min and T_RCD do not exceed T_RAS_max |
| SdramService.HeldRequestIsServed | synth/wishbone/wb_sdram_controller.sv:158-336 | in any cycle of any run, a request held on offer is taken within a bound computed from the timing parameters, if the delay of the row is less than the time it may stay open and the interval leaves time for a refresh and an access |
| SdramService.ServedAfterRefresh | synth/wishbone/wb_sdram_controller.sv:146-336 | a pending refresh delays it by its own wait, and no second one comes between |
| SdramService.ReadsServedIff | synth/wishbone/wb_sdram_controller.sv:155-331 | with such an interval, reads are served from every run if and only if T_RCD is less than T_RAS_max; otherwise no request ever is |
| SdramMemory.CellsAreDistinct | synth/wishbone/wb_sdram_controller.sv:132-139 | different addresses are different cells of row, bank and column |
| SdramMemory.AutoPrechargeNeverIff | synth/wishbone/wb_sdram_controller.sv:314-331 | in no state and with no request does the controller drive a READ or WRITE with address line 10 set, if and only if the columns fit below it |
| SdramMemory.ModeWordIsRight | synth/wishbone/wb_sdram_controller.sv:121-130 | the mode word sets bursts of one, in sequence, and the device's latency to the controller's own, if and only if that is less than eight |
| SdramMemory.StaysAgreedIff | synth/wishbone/wb_sdram_controller.sv:121-336 | from every state in which controller and device agree on the open row, the latency and the contents, every step is legal and they agree after it, if and only if columns and latency fit |
| SdramMemory.HighReadTwice | synth/wishbone/wb_sdram_controller.sv:158-336 | a failing run from power-up with eleven column bits: after one READ of column 1024 the row is closed and the next READ is illegal |
| SdramMemory.CutLatencyLosesReads | synth/wishbone/wb_sdram_controller.sv:121-336 | a failing run from power-up with a latency of ten, which the mode word cuts to two: of ten reads served nothing has been received, and only two words are still to come |
| SdramMemory.CommandsAreLegal | synth/wishbone/wb_sdram_controller.sv:255-336 | every command is legal for a device with one open bank, and each READ or WRITE hits the open row and bank of its own address |
| SdramMemory.IsFlatMemory | synth/wishbone/wb_sdram_controller.sv:121-336 | any run from power-up, across row changes, refreshes and forced closes, with a device that takes its latency from the mode word: it drives a word in exactly the cycles read_dq_valid is high, and the words received are those a flat memory returns for the requests served |
| Crc.ShiftAllSplits | synth/network/gmii_tx_mac.sv:37-91 | the bit-serial register reads a message in parts |
| Crc.ParallelIsSerial | synth/network/gmii_tx_mac.sv:57-88 | the 32 equations are eight steps of the bit-serial register of the polynomial of clause 3.2.9 of IEEE 802.3-2018 |
| Crc.CrcIsRegister | synth/network/gmii_tx_mac.sv:149-211 | folded over any bytes, with their bits reversed, they are the bit-serial register run over the bits in the order of the wire |
| Crc.RegisterIsDivision | synth/network/gmii_tx_mac.sv:37-91 | the register holds the remainder of polynomial long division |
| Crc.FcsIsCheckSequence | synth/network/gmii_tx_mac.sv:116-218 | the four bytes appended are the check sequence the standard defines for the bytes before them |
| Crc.ResidueIsConstant | synth/network/gmii_tx_mac.sv:37-120 | running the register over bytes and check sequence ends on the same constant for all bytes |
| Crc.ResidueIs | synth/network/gmii_tx_mac.sv:37-91 | that constant is 0xC704DD7B |
| GmiiTxMac.StepSends | synth/network/gmii_tx_mac.sv:155-250 | in every state the bytes sent so far are the beginning of a well-formed frame and the register is the CRC of its data |
| GmiiTxMac.DataEnd | synth/network/gmii_tx_mac.sv:165-242 | the data of a frame end with the first data cycle from the 64th on in or before which, since the frame began, the last word was taken |
| GmiiTxMac.EveryFrameIsGood | synth/network/gmii_tx_mac.sv:155-250 | every run: the frames completed are those given by the lines of the stream alone, each beginning as soon as valid is seen, and each is seven 0x55, 0xD5, its data, at least 64 bytes, and the check sequence of exactly those, with at least 12 idle cycles after it |
| GmiiTxMac.Constants | synth/network/gmii_tx_mac.sv:196-204 | preamble and delimiter are 0x55 and 0xD5 |
| GmiiTxMac.GoodFrameAccepted | sim/network/GMIISink.cpp:32-67 | such a frame passes the sink's checks |
| GmiiTxMac.GmiiTx.Clock | synth/network/gmii_tx_mac.sv:155-250 | the registers take the transmitter's step |
| GmiiTxPath.OneFrame | synth/network/gmii_tx_mac.sv:123-250 | with the register in front, whatever the stream holds: a frame carries its next bytes in order, 64 or more and until the last word has been taken into the register, and no byte after them is lost |
| GmiiTxPath.PacketIsCarriedIff | synth/network/gmii_tx_mac.sv:123-250 | a packet alone on the stream is carried whole by its frame if and only if it has at least two and at most 64 bytes |
| GmiiTxPath.LastByteComesLate | synth/network/gmii_tx_mac.sv:123-250 | the last byte of a packet of more than 64 is the first of the next packet's frame |
| GmiiTxPath.NextPacketPads | synth/network/gmii_tx_mac.sv:151-242 | two packets of at most 64 bytes together, the second right behind the first, make one frame |
| GmiiTxPath.NeverEnds | synth/network/gmii_tx_mac.sv:184-242 | a frame during which no last word is taken never ends, as for a packet of one byte |
| GmiiTxPath.TxPath.Clock | synth/network/gmii_tx_mac.sv:123-250 | register and state machine take that step |
| IpChecksum.SumIsResidue | synth/network/ip_checksum.sv:37-42 | the one's complement sum of section 1 of RFC 1071 is the true sum modulo 65535, and zero only if every word is |
| IpChecksum.SameTotalSameSum | synth/network/ip_checksum.sv:67-111 | the order of the words and their split over accumulators cannot matter |
| IpChecksum.Slices | synth/network/ip_checksum.sv:42-111 | the fold, the output and the truncations are the slices and 17-bit assignments of the code |
| IpChecksum.AccumulateAdds | synth/network/ip_checksum.sv:37-57 | the 17-bit accumulator never exceeds 0x1FFFE, loses no carry, and its fold is the end-around sum |
| IpChecksum.ResultsAreChecksums2 | synth/network/ip_checksum.sv:45-66 | two bytes wide, any run and back-pressure: the results are the checksums of the packets accepted, in order |
| IpChecksum.TakenAtOnce2 | synth/network/ip_checksum.sv:45-66 | whatever the sink does, a packet offered without a pause is taken at a word in each cycle, and then its checksum is on show |
| IpChecksum.WaitsFor2 | synth/network/ip_checksum.sv:45-66 | a result waits for its sink and the sum for a word, unchanged |
| IpChecksum.ResultsAreShown | synth/network/ip_checksum.sv:67-115 | four bytes wide, two accumulators, any run and back-pressure: one verdict, taken or missed, for every packet, and each result taken counts its own packet, all that the missed results before it counted, and the upper halves of the missed packets once more |
| IpChecksum.ResultsAreChecksums4Iff | synth/network/ip_checksum.sv:67-115 | any run from reset: the results, then the one on its way, are the checksums of the packets accepted if and only if every result was taken in the one cycle it was presented |
| IpChecksum.SecondResultIsOff | synth/network/ip_checksum.sv:67-115 | a failing run: two packets of the word 1, the first result missed, and the second is 0xFFFD in place of 0xFFFE |
| IpChecksum.RightAfterMissesIff | synth/network/ip_checksum.sv:77-111 | a result after missed packets is its own packet's checksum if and only if all their words are zero, or what they leave adds up to a multiple of 65535 and its packet has a word that is not zero |
| IpChecksum.LeftOfOne | synth/network/ip_checksum.sv:77-111 | what one missed packet leaves is all its words, and the upper half of each 32 bits once more |
| IpChecksum.ChecksumCompletes | synth/network/ip_checksum.sv:42 | words together with their checksum, in any order, sum to 0xFFFF |
| IpChecksum.Checksum2.Clock | synth/network/ip_checksum.sv:45-66 | lines and registers of the two-byte form |
| IpChecksum.Checksum4.Clock | synth/network/ip_checksum.sv:67-115 | lines and registers of the four-byte form |
| IpChecksumBytes.WordCounts | synth/network/ip_checksum.sv:57-90 | an unkept lane counts as nothing |
| IpChecksumBytes.BytesAreSummed2 | synth/network/ip_checksum.sv:45-66 | two bytes wide, any run and back-pressure: the results are the checksums of the kept bytes of the packets, low lane first, an odd last byte padded with zero |
| IpChecksumBytes.BytesAreSummed4Iff | synth/network/ip_checksum.sv:67-115 | four bytes wide: the same if and only if every result was taken in the one cycle it was presented |
| IpChecksumBytes.ByteOrderDoesNotMatter | synth/network/ip_checksum.sv:37-42 | the sum with the low byte first is the checksum of the same bytes in network order with its bytes exchanged, section 2 (B) of RFC 1071 |
| IpHeader.FedIsNetwork | synth/network/ip_header_gen.sv:79-89 | swapping the halves feeds the checksum the word in network order |
| IpHeader.HeaderReads | synth/network/ip_header_gen.sv:43-126 | a receiver that reads the twenty bytes by section 3.1 of RFC 791 finds version 4, five words, the length and twenty, don't fragment, a time to live of 255, protocol, checksum, source and destination |
| IpHeader.HeaderSumsToOnes | synth/network/ip_header_gen.sv:43-126 | any header laid out and fed in this order, with the checksum in place, has one's complement sum 0xFFFF |
| IpHeader.GeneratedHeaderChecks | synth/network/ip_header_gen.sv:61-126 | the same with the result the checksum module gives for the words fed once, whenever it is taken |
| IpHeaderGen.HeadersAreSent | synth/network/ip_header_gen.sv:51-139 | any requests, offered at any time, and any back-pressure: the words emitted are the headers of the requests in order, each with the checksum of what the accumulators had counted for it |
| IpHeaderGen.HeadersFromReset | synth/network/ip_header_gen.sv:51-139 | so from reset what has been emitted is whole headers, one for each request accepted, and the beginning of the next |
| IpHeaderGen.HeaderBytesFromReset | synth/network/ip_header_gen.sv:43-139 | as bytes: one packet of just the twenty bytes of its header for each request accepted, in order, and the first bytes of the next |
| IpHeaderGen.SentInOrder | synth/network/ip_header_gen.sv:110-139 | one header for each request accepted, in order |
| IpHeaderGen.StaysOnOfferIff | synth/network/ip_header_gen.sv:108-126 | valid does not wait for ready, and a word that is not taken stays on offer if and only if it is not word 2 |
| IpHeaderGen.OneBehindGetsNone | synth/network/ip_header_gen.sv:86-139 | failing runs: a sink whose ready is valid of the cycle before never gets a header, whatever is offered and when |
| IpHeaderGen.HeaderRightIff | synth/network/ip_header_gen.sv:43-126 | a header sums to 0xFFFF if and only if what was counted for it adds up, modulo 65535, to the words of its request |
| IpHeaderGen.FirstHeaderRightIff | synth/network/ip_header_gen.sv:86-139 | the first header, whatever the timing: right if and only if what the results missed before its word 2 left adds up to a multiple of 65535 |
| IpHeaderGen.CopiesLeave | synth/network/ip_header_gen.sv:86-107 | k missed results of one request leave k times its words and 1+...+k times their upper halves |
| IpHeaderGen.PromptSinkGetsRightHeader | synth/network/ip_header_gen.sv:86-139 | a sink that takes two words within seven cycles of the first request being offered gets a right header, however it stalls afterwards, and within ten cycles if it is then ready |
| IpHeaderGen.LateSinkHeaderRightIff | synth/network/ip_header_gen.sv:86-139 | one that takes fewer, and then is ready, gets a header within eighteen cycles, and a right one if and only if the words and their upper halves once more add up to a multiple of 65535 |
| IpHeaderGen.LateHeaderIsWrong | synth/network/ip_header_gen.sv:86-139 | a failing run of eighteen cycles |
| IpHeaderGen.HeadersAfterTheFirstRightIff | synth/network/ip_header_gen.sv:65-139 | a sink that is always ready, any requests offered at any time: the first header is right, and each later one if and only if the addresses of the request before it add up to its own modulo 65535; offered at once, all have left after ten cycles each |
| IpHeaderGen.SecondHeaderIsWrong | synth/network/ip_header_gen.sv:65-139 | a failing run of twenty cycles, for any two requests whose addresses add up differently |
| IpHeaderGen.AddressesDiffer | synth/network/ip_header_gen.sv:43-47 | and two such requests |
| IpHeaderGen.HeaderGen.Clock | synth/network/ip_header_gen.sv:43-139 | the two counters and the checksum module inside take the generator's step, with its lines |
| Uart.BaudFacts | synth/other/uart_rx.sv:24-59 | for a number of cycles that is not a power of two the sliced comparison ends a bit at the last count, and samples at half |
| Uart.SameRateIsCompatible | synth/other/uart_rx.sv:24-61 | equal bit lengths of at least three cycles always put the samples inside the bits |
| Uart.TxMoves | synth/other/uart_tx.sv:43-76 | the line follows the frame bit by bit, one cycle behind the counters |
| Uart.StartsIff | synth/other/uart_tx.sv:27-66 | an idle sender starts a frame if and only if a word is offered and the other side is ready; until then its line does not move |
| Uart.RxMoves | synth/other/uart_rx.sv:32-75 | every sample falls in the sender's bit of the same number |
| Uart.RxStops | synth/other/uart_rx.sv:59-65 | at the stop bit's sample the word is complete and right |
| Uart.StepHolds | synth/other/uart_rx.sv:32-76 | every cycle of sender, synchroniser and receiver keeps them in step, also when the next frame begins before the receiver is done |
| Uart.ReceivesWhatIsSent | synth/other/uart_rx.sv:32-76 | for any words, gaps and data width: what the receiver reports, each once and in order, is what the sender accepted, but for at most two words under way |
| Uart.TwoCyclesReset | synth/other/uart_rx.sv:20-35 | two cycles of reset lead from any state to the one the runs start from, but for the valid line, which is not reset |
| Uart.StaleWord | synth/other/uart_rx.sv:32-76 | a word that was being reported when reset began is reported once more after it, and nothing else of the time before |
| Uart.ShortResetReports | synth/other/uart_rx.sv:20-76 | one cycle of reset after power-up: the receiver reports a word of ones that nobody sent |
| Uart.OldestArrives | synth/other/uart_tx.sv:43-77 | the oldest word under way is reported within the time a frame takes |
| Uart.PowerOfTwoNeverEnds | synth/other/uart_tx.sv:50-73 | with a power of two cycles per bit the sender stays in its start bit for ever |
| Uart.SameRateWorksIff | synth/other/uart_rx.sv:24-76 | with equal bit lengths a word is reported, unchanged, if and only if the number of cycles is not a power of two |
| Uart.UartTx.Clock | synth/other/uart_tx.sv:21-77 | lines and registers of the sender |
| Uart.UartRx.Clock | synth/other/uart_rx.sv:19-76 | registers of the receiver behind its synchroniser |
| ByteStream.PackedFormIsUnique | synth/axis/axis_packer.sv:11-15 | two streams of full words that carry the same bytes and packet ends are the same words |

## Left out

- Cdc.ExactlyOnce: metastability and electrical effects; a synchroniser is a chain of registers under arbitrary clock interleaving.
- PacketFifoAsync.EmitsCommittedPrefix: reset is applied only at the start, and to both clock domains together; the depth is any positive number, not only a power of two.
- AxisHeaderTagger.StripsHeaders: the user lines, which the tagger itself does not connect at its output.
- EthLoopback.DeframingUndoesFraming: 4-byte streams, the only width the deframer supports; that everything comes out (`EthLoopbackProgress.EverythingComesOut`) supposes a source that keeps offering and a far end that is always ready.
- SdramTiming.NoRefreshIsLost: the interval in milliseconds, computed with `1.0**-3` at `synth/wishbone/wb_sdram_controller.sv:55`, is a free number of cycles; the timing parameters are cycle counts that fit the eight-bit timeout, and T_CL is at least 2.
- SdramMemory.IsFlatMemory: the widths of the address pins, the encoding of commands on the pins, the power-up delay, and the timers' power-up values, which are zero here.
- The pairing of the command and data FIFOs of `synth/wishbone/wb_sdram.sv:137-161`; the controller is modelled alone.
- GmiiTxPath.OneFrame: a source that pauses between packets, and what the last line shows while nothing is offered, which is taken to be low; the width converter in front of wider streams, whose null lanes are sent like any others.
- IpHeaderGen.HeadersAfterTheFirstRightIff: later headers with a sink that stalls; `IpHeaderGen.HeadersAreSent` and `IpHeaderGen.HeaderRightIff` say of any run what each header counts and when that is right, but not in the requests' words alone.
- IpHeaderGen.HeadersAreSent: a source that withdraws a request before it is accepted.
- Uart.ReceivesWhatIsSent: one clock for both sides, and bit lengths that meet the stated sampling condition; it starts where a reset of two cycles leads (`Uart.TwoCyclesReset`).
- Everything under `sim/` except the checks of `sim/network/GMIISink.cpp`, which are the acceptance predicate of the transmitter.
- axis_error_filter_async, gmii_rx_mac_async, axis_trimmer, ip_deframer, tcp_deframer, tcp_header_gen, wb_axis_bridge_modified and serial_wb_master: incomplete, or their comments and code disagree.
- axis_counter, axis_switch, axis_gater, axis_spacer, axis_register, rom_to_axis, vector_to_axis, wb_interconnect and simple_wb_slave: their laws would only add easy members.
