# Verification of the NetFPGA-10G NIC's DMA data path

This project models the state machines and the driver code that move packets between the wire and host memory
in the NetFPGA-10G NIC, and proves what they guarantee together.  It follows the repository's own division:
one module per hardware module or driver file, each machine as a pure step function with a class that performs
the step on registers and memories, and on top of them the compositions and their results.

**Receive.** `RxMacInterface` writes frames speculatively into a 512-qword ring and publishes or forgets them;
`RxFraming` compares that with the frames the MAC's beats carry, and finds the one case in which the two
disagree, and `RxRoom` tells from the counts alone which frames find room.  `RxTlpTrigger` cuts the published
qwords into 16-qword requests and closes huge pages, within the time that `RxTriggerProgress` bounds and not
before `RxTriggerPatience` lets it; `RxProgress` has both for all runs of the whole path.
`RxWrPktToHugepages` turns requests into memory writes and ends a page with its header.  `RxTlpSender` is one
such write clock by clock, with the ring read ahead and an endpoint that stalls: two kinds of stalls make it
leave out or give up qwords, and it says exactly which; what follows is about writes without them.
`RxPipeline` composes them, with read counts that arrive late, and `RxRoundTrip` has the result: the driver's
walk over the returned pages (`LbufApi`) gives back exactly a prefix of the committed frames, and those are
the good frames of the wire outside that one case.

**Transmit.** `TxRequest` sizes read requests against the ring and numbers them; `TxRequestSizing` says when a
request goes out and for how much, `TxRequestOverrun` for which buffer sizes the 10-bit sum cannot wrap.
`TxReassembly` is the completion machine with its registers per tag and the in-order commit; `TxEngine`
composes both with a reader and proves that what is read out is what the posted buffers held, however
completions are split and interleaved, and which bus clocks without data the machine survives.  `TxSplit` says
for which buffer addresses a completion can be too short for it, and `TxBoundary` for which buffers a request
can cross a 4 KB boundary.

**Clocks and bus.** `RxTriggerSynch` and `RxRdAddrSynch` are the two crossings between 156.25 and 250 MHz,
clock by clock; edges may coincide.  `RxTriggerLink` puts the trigger and its crossing on their common clock,
and `RxClocked` the whole receive path on its two clocks with both crossings, the writer acknowledging a
request first, then reading the ring qword by qword, and freeing the slots at the end: every run of it is a
run of `RxPipeline`, so that the round trip holds there too.  `EndpointBus` is the arbiter with both bus
drivers, clock by clock, `BusTlps` what the endpoint gets from them: whole TLPs, and `BusTasks` for which
tasks; `RxBusDriverIs` shows that the three accounts of the receive side's machine are one.  `HugePages`
follows the ownership of pages through the status bits and the machines that give and free, and `RxHost` puts
all that together with the host's memory: two pages at a time, wherever the host places them, and a host that
writes to everything else.

**Driver.** `DescRing` and `DriverTx` are the descriptor rings and the transmit side's completion and garbage
collection, `DriverTxRuns` the same under interference by the device, which may report any address at any time
and as often as it likes, `DriverTxDevice` what the completion words say of a device that marks what it has
completed, `DriverTxOrder` what is freed when for a device that reports in order and buffers whose addresses
are used again.  `SkbPool` and `SkbPoolChains` are the buffer pool as lists and as spliced next pointers.
`XenCopier` and `XenBackend` are the page copier over the ring shared with a Xen front end, which goes on
during the calls.

Hardware pointers of 9 and 10 bits, counters of 2, 3 and 32 bits and their wrap-around are modelled as they
are; every one is tied to an unbounded count (`Ring`).  A transition the surroundings cannot make leaves the
state as it is, so the results about all runs hold for all sequences of actions.

`dafny verify dfyconfig.toml` checks everything.

## Model

| member | source | states |
|---|---|---|
| LbufApi.DeliverPackets | sw/driver/nf10_lbuf.c:433-498 | the driver's walk over any page fills one buffer per packet of 60 to 1518 bytes, in order, each packet without its last four bytes, and nothing for other packets or an invalid header |
| LbufApi.WalkIsSound | sw/driver/nf10_lbuf.c:448-498 | for any page contents the walk ends and reads every header inside the written part of the 2 MB buffer; each position follows from the one before |
| LbufApi.SkbsAreStrippedPackets | sw/driver/nf10_lbuf.c:453-460 | what the walk fills is the list of packets with the unacceptable lengths left out and four bytes cut |
| LbufApi.WalkEncoded | sw/driver/nf10_lbuf_api.h:12-20 | a walk over packets laid out back to back meets exactly those packets and ends exactly at their end |
| LbufApi.ParseEncoded | sw/driver/nf10_lbuf_api.h:7-23 | a page whose header counts the qwords of a list of packets is valid and parses to those packets |
| LbufApi.AppWalk | sw/apps/lbuf_rx.c:71-103 | the application's branch-based walk counts the acceptable packets at the positions it visits |
| LbufApi.AcceptedCountIs | sw/apps/lbuf_rx.c:84-90 | that is the number of visited positions with a length of 60 to 1518 |
| LbufApi.AcceptanceAgreesIff | sw/apps/lbuf_rx.c:72-80 | driver and application accept the same header counts exactly when the doubled count stays in the signed range and does not wrap into the reserved area |
| LbufApi.NextAgreesIff | sw/driver/nf10_lbuf_api.h:20 | the two ways to step to the next packet agree exactly for lengths up to 2^32 - 8 |
| LbufApi.WalksAgreeIff | sw/apps/lbuf_rx.c:84-103 | on a page both accept the two walkers visit the same positions exactly when no visited length wraps |
| RxMacInterface.MacInterface.Tick | hw/my_engine/src/rx_mac_interface.v:97-188 | a clock of the MAC interface on its registers and its ring, as the step function has it |
| RxFraming.FramedOn | hw/my_engine/src/rx_mac_interface.v:97-188 | with the MAC's frames told from its beats alone (a gap, the preamble, then bytes up to good or bad), every clock keeps the interface and the wire together as long as no frame begins in the clock after a late one, that is one that met the nearly full ring in its very last clock; and in any case it keeps the interface able to place the MAC's beats |
| RxFraming.KeptIsCommitted | hw/my_engine/src/rx_mac_interface.v:161-188 | in such a run the committed frames are exactly the good frames of the wire that never met the nearly full ring, whole and in order; the latest may still be one clock away |
| RxFraming.CommitIffGood | hw/my_engine/src/rx_mac_interface.v:110-159 | in such a run a frame is up for publication exactly after the clock in which the MAC ends a good one that has not met the nearly full ring, and then with all its bytes |
| RxFraming.DroppedAtItsEnd | hw/my_engine/src/rx_mac_interface.v:151-156 | a frame that meets the nearly full ring in its last clock leaves the interface dropping for a clock more |
| RxFraming.NextFrameIff | hw/my_engine/src/rx_mac_interface.v:169-184 | the good frame after it comes to publication whole exactly if at least one clock lies between; without one its first beat of data is missing, and nothing else |
| RxFraming.FirstQwordIsLost | hw/my_engine/src/rx_mac_interface.v:100-184 | six clocks from reset that commit a frame without its first qword |
| RxRoom.CommittedIff | hw/my_engine/src/rx_mac_interface.v:97-159 | in an interface that waits, a frame that the MAC ends as good comes to publication exactly if in every clock before its last, the preamble's included, the slot to be written lies no more than 480 beyond the read count seen; in the preamble's clock that may be the slot behind a frame forgotten the clock before, which then costs the new one |
| RxRoom.FittingIsCommitted | hw/my_engine/src/rx_mac_interface.v:97-159 | so a good frame after a gap does if all its qwords lie within 480 of the read count |
| RxMacInterface.CommitPublishes | hw/my_engine/src/rx_mac_interface.v:161-175 | the committed pointer moves behind the frame's complete encoding, and nothing is published in any other state |
| RxMacInterface.CommitEncodes | hw/my_engine/src/rx_mac_interface.v:161-166 | header and speculatively written qwords together encode the frame behind everything committed before |
| RxMacInterface.TickKeeps | hw/my_engine/src/rx_mac_interface.v:97-188 | with any late read pointer every clock keeps the 9-bit difference true, only extends what is committed, and writes no slot that holds an unread committed qword |
| RxTlpTrigger.TlpTrigger.Tick | hw/my_engine/src/rx_tlp_trigger.v:63-233 | a clock of the trigger with its timeout counter, as the step function has it |
| RxTlpTrigger.TickKeeps | hw/my_engine/src/rx_tlp_trigger.v:112-233 | every request handed over covers committed qwords only; every page end lies at an earlier value of the committed pointer; a page gets at least one qword and with its reserved ones fewer than 2^18; only a page's last request is short |
| RxTlpTrigger.OnlyItsOwnAck | hw/my_engine/src/rx_tlp_trigger.v:154-204 | each state reacts to no acknowledgement but its own |
| RxTriggerProgress.StepOn | hw/my_engine/src/rx_tlp_trigger.v:63-233 | while committed qwords are not on a closed page, every clock of the trigger waits for an acknowledgement, closes the page that takes them, or brings that nearer by the measure |
| RxTriggerProgress.ClosedInTime | hw/my_engine/src/rx_tlp_trigger.v:63-233 | for any inputs that a growing committed count less than a ring ahead allows, whatever the acknowledgements, the first `c` committed qwords are on closed pages once the trigger has had as many clocks of its own as the measure says, two page closings at most |
| RxTriggerProgress.ClocksBounded | hw/my_engine/src/rx_tlp_trigger.v:63-89 | that is never more than the time for two full pages and one turn of the timeout counter |
| RxTriggerPatience.ClosedOnlyIfDue | hw/my_engine/src/rx_tlp_trigger.v:112-152 | and no sooner than it must: in every run a page's end is handed over only if the batch of at least 16 qwords found last would bring the page to 2^18 with those it reserves and holds, or if fewer than 16 committed qwords had been waiting for more than 0xA000 clocks on end when the request was raised |
| RxProgress.SeenFollows | hw/my_engine/src/my_top.v:497-560 | what the trigger sees in its clocks of any run of `RxPipeline` are such inputs, and they lead to the trigger of that run |
| RxProgress.ReturnedInTime | hw/my_engine/src/rx_tlp_trigger.v:63-233 | so in every run of the receive path the first `c` committed qwords are on closed pages in that time, and on returned ones as soon as the writer has served all requests |
| RxProgress.CommittedAreReturned | hw/my_engine/src/my_top.v:497-560 | and with a page and two services more they are on returned pages |
| RxProgress.ClosedOnlyIfDue | hw/my_engine/src/rx_tlp_trigger.v:112-152 | the same in every run of the receive path |
| RxWrPktToHugepages.HugepageWriter.SendTlp | hw/my_engine/src/rx_wr_pkt_to_hugepages.v:245-328 | a TLP carries the next ring qwords to the next host address |
| RxWrPktToHugepages.HugepageWriter.Serve | hw/my_engine/src/rx_wr_pkt_to_hugepages.v:218-243 | an owed or requested page end goes first, then a last TLP, then a full one; a last TLP is acknowledged only with the page end after it |
| RxWrPktToHugepages.ServeKeeps | hw/my_engine/src/rx_wr_pkt_to_hugepages.v:218-386 | serving a request lays its qwords, the next of the committed stream, without a gap behind those already on the page, in a TLP that starts at a multiple of 128 bytes and crosses no 4 KB boundary |
| RxWrPktToHugepages.ServeNumbers | hw/my_engine/src/rx_wr_pkt_to_hugepages.v:260-273 | every data TLP carries its number among all of them, modulo 16, as its tag |
| RxWrPktToHugepages.PageContents | hw/my_engine/src/rx_wr_pkt_to_hugepages.v:379-386 | whatever the page held before, after its TLPs it holds its qword count in front and its qwords from the 17th on |
| RxTlpSender.TlpSender.Tick | hw/my_engine/src/rx_wr_pkt_to_hugepages.v:203-343 | a clock of the writer in its data states, with the two registers in the ring behind the read address |
| RxTlpSender.Sends | hw/my_engine/src/rx_wr_pkt_to_hugepages.v:245-343 | however the endpoint stalls the beats, a TLP that has been sent is a header, the address and successive qwords of the ring, from the next one on or, if the header was stalled for an even number of clocks, from the one behind it; reading goes on behind them and as many slots further as the clocks the last beat was stalled for leave modulo three, and the next TLP can be decided on |
| RxTlpSender.AsServedIff | hw/my_engine/src/rx_wr_pkt_to_hugepages.v:275-328 | so the beats and the registers after them are those of the writer's step exactly if the header was stalled for no clock or an odd number of them, and the last beat for a multiple of three |
| RxTlpSender.NeverAheadIff | hw/my_engine/src/rx_wr_pkt_to_hugepages.v:317-319 | and the committed read address shows nothing but the old value and the right new one exactly if the last beat was not stalled at all and the header as said |
| RxTlpSender.StallsExist | hw/my_engine/src/rx_wr_pkt_to_hugepages.v:275-328 | an endpoint can stall header and last beat of a TLP of any size for any numbers of clocks |
| RxTlpSender.SkipsQword | hw/my_engine/src/rx_wr_pkt_to_hugepages.v:290-294 | with the header stalled for two clocks the next qword is never sent, and one that the request does not cover is |
| RxTlpSender.GivesUpQword | hw/my_engine/src/rx_wr_pkt_to_hugepages.v:317-319 | with the last beat stalled for one clock the slot of a qword that has not been sent is given up |
| RxTlpSender.ThreeReadyClocks | hw/my_engine/src/rx_wr_pkt_to_hugepages.v:298-343 | an endpoint that is ready for three clocks on end gets at least one qword further |
| RxTlpSender.NeverEnds | hw/my_engine/src/rx_wr_pkt_to_hugepages.v:298-343 | one that is ready in every third clock only, out of step with the machine, never does |
| RxPipeline.StepKeeps | hw/my_engine/src/my_top.v:497-560 | any step of any part keeps the invariant that ties the three machines, the wire, the ring and the pages together; `RxClocked.StepSimulates` shows that the link and the late counts in it stand for the clocked crossings |
| RxPipeline.RunKeeps | hw/my_engine/src/my_top.v:497-560 | that invariant holds after any sequence of steps from reset, and by `RxClocked.RunSimulates` in any run of the clocked machines |
| RxPipeline.TriggerLegal | hw/my_engine/src/rx_tlp_trigger.v:112 | the trigger never falls a whole ring behind, so its 9-bit difference is the true distance |
| RxRoundTrip.RoundTrip | sw/driver/nf10_lbuf.c:448-498 | in every run the packets parsed from the first returned pages, however many of them, in return order, are exactly a prefix of the committed frames, and what is handed up are those of acceptable length without their last four bytes; as long as no frame begins in the clock after a late one, they are a prefix of the good frames on the wire that never met the nearly full ring |
| RxRoundTrip.PageParses | hw/my_engine/src/rx_tlp_trigger.v:116-152 | one returned page parses to the frames between two packet boundaries, at least one |
| RxRoundTrip.NothingIsLost | hw/my_engine/src/rx_wr_pkt_to_hugepages.v:317-328 | every committed qword is on a returned page, on the open page, or still intact in the ring, and in one of them only |
| RxRoundTrip.ReturnedPagesAreValid | hw/my_engine/src/rx_wr_pkt_to_hugepages.v:210-216 | every page is returned at a packet boundary, is not empty, stays below 2 MB, and its header passes the driver's check with the exact dword count |
| RxRoundTrip.TlpsStayWithinFourKb | hw/my_engine/src/rx_wr_pkt_to_hugepages.v:229-241 | every TLP of a returned page starts at a multiple of 128 bytes, carries at most 16 qwords and crosses no 4 KB boundary |
| TxRequest.RequestEngine.Ask | hw/my_engine/src/tx_wr_pkt_to_bram.v:308-435 | a request is sized and handed over, or waited for, as the step function has it |
| TxRequest.RequestEngine.PickChunk | hw/my_engine/src/tx_wr_pkt_to_bram.v:331-355 | with no more than a ring reserved the chain of bit tests picks the largest power of two from 256 to 16 that leaves the ring not full, or none when 16 would fill it |
| TxRequest.ChunkIsLargest | hw/my_engine/src/tx_wr_pkt_to_bram.v:331-355 | the chunk is the largest power of two from 256 to 16 that leaves the ring not full, and none exactly when 16 do not fit |
| TxRequest.LengthIsSize | hw/my_engine/src/tx_rd_host_mem.v:155-167 | the 10-bit length field means the requested size exactly if that is not zero, for 512 qwords too, where the field is zero |
| TxRequest.SizingFitsIff | hw/my_engine/src/tx_wr_pkt_to_bram.v:325-389 | a decided size overruns the ring in exactly one case: 512 reserved as seen a clock earlier, 512 left to ask for, and not all of it free by now |
| TxRequestSizing.AskSizeIs | hw/my_engine/src/tx_wr_pkt_to_bram.v:285-389 | in any state that keeps the invariant, the size of the next request by what is left of the buffer, asked for, read and answered: none with nothing left or four requests under way; a whole ring of a longer buffer into the empty ring; all that is left if it stays below a ring; else the largest power of two that does |
| TxRequestSizing.AsksIff | hw/my_engine/src/tx_wr_pkt_to_bram.v:308-389 | so a request goes out exactly if something is left, fewer than four are under way, and all that is left or 16 qwords stay below a ring, or more than a ring is left and the ring is empty |
| TxRequestSizing.FourOutstanding | hw/my_engine/src/tx_wr_pkt_to_bram.v:316-321 | there are runs with four requests under way at a time |
| TxRequest.StepKeeps | hw/my_engine/src/tx_wr_pkt_to_bram.v:285-435 | with safe buffer sizes every step keeps reserved, unread space within 512 and at most four requests outstanding |
| TxRequest.RequestsTileBuffer | hw/my_engine/src/tx_wr_pkt_to_bram.v:391-435 | in every run with safe sizes the requests for a buffer ask for consecutive qwords from its start, with the right length fields and tags, and add up to its size exactly when it is done; `TxBoundary` says when they stay within 4 KB blocks |
| TxRequest.OutstandingApart | hw/my_engine/src/tx_wr_pkt_to_bram.v:308-401 | in every such run at most four requests are outstanding, they differ in the two tag bits that index the tag arrays, and no two unread qwords share a ring slot |
| TxRequestOverrun.OverrunExists | hw/my_engine/src/tx_wr_pkt_to_bram.v:290-359 | for every size of at least 1024 qwords that is a multiple of 16 there is a run that reserves twice the ring |
| TxRequestOverrun.SafeSizeIff | hw/my_engine/src/tx_wr_pkt_to_bram.v:290-359 | buffers of a size never overrun the ring, among others below 1024 qwords, exactly when the size is below 1024 or no multiple of 16 |
| TxBoundary.NoneCrosses | hw/my_engine/src/tx_wr_pkt_to_bram.v:391-435 | in any state that keeps the invariant, whatever other buffers there are, no request for a buffer that lies within one 4 KB block crosses a boundary |
| TxBoundary.CrossingExists | hw/my_engine/src/tx_wr_pkt_to_bram.v:325-389 | for every buffer that lies across one, whatever its address and size, there is a run, built from one more buffer of 480 qwords, in which a request for it crosses a boundary |
| TxBoundary.NeverCrossesIff | hw/my_engine/src/tx_wr_pkt_to_bram.v:325-435 | a buffer of safe size never leads to a request across a 4 KB boundary, among whatever others of safe sizes, exactly if it lies across none itself, which the driver could check before posting it |
| TxBoundary.PageAlignedCrosses | hw/my_engine/src/tx_wr_pkt_to_bram.v:326-329 | alignment does not help: a run of buffers of safe sizes at multiples of 4096 with a request that crosses a boundary |
| TxReassembly.Reassembler.TakeHeader | hw/my_engine/src/tx_wr_pkt_to_bram.v:751-762 | the first beat of a completion: its length in qwords, and whether it is odd |
| TxReassembly.Reassembler.TakeFirst | hw/my_engine/src/tx_wr_pkt_to_bram.v:764-794 | a clock of state s1: whatever tag the bus shows loses its mark and has its next slot written; with a valid beat the choice among the four cases |
| TxReassembly.Reassembler.TakeBeat | hw/my_engine/src/tx_wr_pkt_to_bram.v:796-868 | a further beat in the four even and odd cases, or a clock without data |
| TxReassembly.Reassembler.CommitTick | hw/my_engine/src/tx_wr_pkt_to_bram.v:727-749 | a clock of the commit machine |
| TxReassembly.Reassembler.Claimed | hw/my_engine/src/tx_wr_pkt_to_bram.v:719-723 | an acknowledged request starts its tag's registers anew |
| TxReassembly.SingleDwordIsMissed | hw/my_engine/src/tx_wr_pkt_to_bram.v:764-794 | after a completion of one dword the machine still waits and takes the next beat on the bus for part of it |
| TxSplit.ComesSinglyIff | hw/my_engine/src/tx_wr_pkt_to_bram.v:764-794 | with completions split at multiples of 64 bytes, a request may bring one of a single dword exactly if it starts 60 bytes past such a multiple or ends 4 past one |
| TxSplit.NeverSinglyIff | sw/driver/nf10_lbuf.c:730-735 | no request at a dword-aligned address brings one, whatever its size, exactly if the address is a multiple of eight; the driver asks for a multiple of four |
| TxSplit.WholeQwordsOnly | hw/my_engine/src/tx_wr_pkt_to_bram.v:391-435 | in every run in which all posted addresses are multiples of eight and all posted sizes safe, every completion of every request brings whole qwords, however it is split |
| TxReassembly.CountsQwordsIff | hw/my_engine/src/tx_wr_pkt_to_bram.v:753-756 | the qwords of a completion are counted right exactly below 1024 dwords |
| TxEngine.WriteKeepsAll | hw/my_engine/src/tx_wr_pkt_to_bram.v:796-868 | a write for one request disturbs nothing committed and no finished qword of any request |
| TxEngine.BeatIsGood | hw/my_engine/src/tx_wr_pkt_to_bram.v:796-868 | a beat writes exactly the next host qword, unless it is the odd end of a completion, and the last beat leaves the tag's address, size and saved dword as the dwords received demand |
| TxEngine.FirstGood | hw/my_engine/src/tx_wr_pkt_to_bram.v:764-794 | the first dword completes the saved one to the right host qword, or waits for the next |
| TxEngine.StrayIff | hw/my_engine/src/tx_wr_pkt_to_bram.v:764-776 | a clock of state s1 without data keeps the engine's invariant, whatever dword comes with it, exactly if the tag that the bus shows belongs to no request waiting for its commit and its address points at no ring slot that holds a needed qword |
| TxEngine.UnfinishedTolerated | hw/my_engine/src/tx_wr_pkt_to_bram.v:764-776 | the tag of the completion at hand, or of any request that still waits for dwords, is always such a tag |
| TxEngine.StrayStalls | hw/my_engine/src/tx_wr_pkt_to_bram.v:727-769 | after a clock that shows the tag of a request waiting for its commit, no run ever completes that request |
| TxEngine.StepKeeps | hw/my_engine/src/tx_wr_pkt_to_bram.v:698-874 | requests, completions in any split and order, bus clocks without data (in state s1 those it tolerates), commits and reads all keep the engine's invariant |
| TxEngine.ReadOutIsPosted | hw/my_engine/src/tx_wr_pkt_to_bram.v:698-874 | in every run with safe sizes what is read out of the ring is a prefix of the posted buffers' contents, in posting order |
| TxEngine.CommitInOrder | hw/my_engine/src/tx_wr_pkt_to_bram.v:725-749 | in every run with safe sizes the committed pointer only advances, and every unread slot before it holds its final host qword, in request order |
| TxEngine.CommitCatchesUp | hw/my_engine/src/tx_wr_pkt_to_bram.v:727-749 | once all requests are answered, in whatever order, the commit machine reaches the last of them in at most two clocks each |
| RxTriggerSynch.TriggerSynch.SlowTick | hw/my_engine/src/rx_trigger_synch.v:119-194 | a clock of the 156.25 MHz side |
| RxTriggerSynch.TriggerSynch.FastTick | hw/my_engine/src/rx_trigger_synch.v:223-303 | a clock of the 250 MHz side |
| RxTriggerSynch.StepKeeps | hw/my_engine/src/rx_trigger_synch.v:134-303 | with one or two fast clocks between two slow ones, coinciding or not, every clock keeps the handshake's invariant |
| RxTriggerSynch.ExactlyOnce | hw/my_engine/src/rx_trigger_synch.v:134-303 | in every run the requests presented are those accepted, once each, in order, with their payloads, except that the last may still be on its way |
| RxTriggerSynch.AcceptedOneByOne | hw/my_engine/src/rx_trigger_synch.v:136-152 | a request is accepted only when all before it have been presented and acknowledged |
| RxTriggerSynch.AckIsAccept | hw/my_engine/src/rx_trigger_synch.v:136-183 | the trigger sees an acknowledgement in exactly the clock after the one that accepted its request |
| RxTriggerSynch.PresentedSoon | hw/my_engine/src/rx_trigger_synch.v:238-303 | an accepted request is presented within ten fast clocks |
| RxTriggerSynch.ReleaseShrinks | hw/my_engine/src/rx_trigger_synch.v:160-192 | after the consumer's acknowledgement the slow side is ready again within four of its clocks |
| RxTriggerLink.ClockKeeps | hw/my_engine/src/rx_tlp_trigger.v:154-204 | a request is held with its size until its acknowledgement, is accepted once in that time, and is what the trigger then counts as handed over |
| RxTriggerLink.HandedOverOnce | hw/my_engine/src/rx_trigger_synch.v:134-303 | in every run of trigger and crossing together, what the trigger has handed over and what the fast side has been shown are the same requests, once each, in order, each at most one behind what was accepted, full TLPs with their 16 qwords |
| RxTriggerLink.TakenInTime | hw/my_engine/src/rx_trigger_synch.v:134-190 | from any state in which the crossing does not wait for the consumer, the request that the trigger offers is the next one taken, within six slow clocks |
| RxClocked.Counts | hw/my_engine/src/rx_trigger_synch.v:134-303 | with the trigger, the crossing and the writer clocked, the acknowledgement a clock after the decision: the request handed over and not yet begun is the one the writer is shown, and there is none when the trigger is about to take one |
| RxClocked.EndsAfterItsWords | hw/my_engine/src/rx_wr_pkt_to_hugepages.v:298-343 | a request that the writer has begun can be ended after exactly as many qwords as its TLP has, not before, and no further qword is read |
| RxClocked.AddressStep | hw/my_engine/src/rx_rd_addr_synch.v:58-112 | the read address the MAC side gets back is one up to which the writer has freed the ring, no older than the one before |
| RxClocked.StepSimulates | hw/my_engine/src/my_top.v:497-560 | every edge of either clock, or of both, is a sequence of steps of `RxPipeline`, also while a TLP is acknowledged but its qwords are still being read and not yet freed: the crossings are the link and the late read counts, and the TLP is the step in which the writer begins it |
| RxClocked.RunSimulates | hw/my_engine/src/my_top.v:497-560 | so every run of the clocked machines is a run of `RxPipeline` |
| RxClocked.RoundTrip | hw/my_engine/src/my_top.v:497-560 | and on the pages really returned, up to any of them, the driver finds the frames, with both crossings and a TLP under way in between |
| RxRdAddrSynch.RdAddrSynch.FastTick | hw/my_engine/src/rx_rd_addr_synch.v:58-89 | a clock of the capturing side |
| RxRdAddrSynch.RdAddrSynch.SlowTick | hw/my_engine/src/rx_rd_addr_synch.v:104-112 | a clock of the receiving side |
| RxRdAddrSynch.ShowsReachedCounts | hw/my_engine/src/rx_rd_addr_synch.v:58-112 | in every run the output is a read count that was really reached and never goes back, even when an edge catches torn bits |
| RxRdAddrSynch.ShownBeforeNext | hw/my_engine/src/rx_rd_addr_synch.v:60-112 | a captured address reaches the output before the next is captured |
| RxRdAddrSynch.UpToDateWhenIdle | hw/my_engine/src/rx_rd_addr_synch.v:60-65 | when the capturing side finds nothing new the output shows its input |
| RxRdAddrSynch.ShownInTime | hw/my_engine/src/rx_rd_addr_synch.v:58-112 | from any state, once the input has stayed the same for 15 fast clocks, however slow clocks fall between them, the output shows it |
| EndpointBus.EndpointArbitration.Tick | hw/my_engine/src/enpoint_arbitration.v:52-77 | a clock of the arbiter |
| EndpointBus.RxBusDriver.Tick | hw/my_engine/src/rx_wr_pkt_to_hugepages.v:208-413 | a clock of the receive side's bus driver |
| EndpointBus.TxBusDriver.Tick | hw/my_engine/src/tx_rd_host_mem.v:119-314 | a clock of the transmit side's bus driver |
| EndpointBus.TickKeeps | hw/my_engine/src/enpoint_arbitration.v:52-71 | a clock of all three keeps: at most one drives, a turn is given only while none drives, and who does not drive shows idle signals |
| EndpointBus.BusIsExclusive | hw/my_engine/src/pcie_endpoint_driver.v:473-478 | in every reachable state at most one side drives, and the OR and AND of both sides' signals are the driver's own |
| EndpointBus.StartsOnlyInTurn | hw/my_engine/src/rx_wr_pkt_to_hugepages.v:218-243 | a side starts to drive only in its turn, when neither drives |
| EndpointBus.TurnsAlternate | hw/my_engine/src/enpoint_arbitration.v:54-65 | between two turns of one side the other has had one |
| EndpointBus.TransmitStarves | hw/my_engine/src/rx_wr_pkt_to_hugepages.v:210-224 | while the receive side waits for a page after ending one, it keeps driving, and the transmit side gets no turn however long it lasts |
| EndpointBus.ReleasesIff | hw/my_engine/src/rx_wr_pkt_to_hugepages.v:218-243 | a receive side that drives lets go exactly in a clock of state s1 that finds nothing to send |
| EndpointBus.TurnAfterRelease | hw/my_engine/src/enpoint_arbitration.v:52-71 | and the very next clock gives the transmit side its turn |
| EndpointBus.HeldIff | hw/my_engine/src/rx_wr_pkt_to_hugepages.v:210-243 | from that situation on, in every run, the bus stays held exactly if the receive side finds something to send in every later clock of state s1, to which it does not come before the next page |
| EndpointBus.TurnIffReleased | hw/my_engine/src/enpoint_arbitration.v:52-71 | and the transmit side gets a turn exactly if the bus is let go before the last clock |
| EndpointBus.StarvationIsReached | hw/my_engine/src/rx_wr_pkt_to_hugepages.v:388-400 | that situation is reached from reset |
| BusTlps.WholeTlps | hw/my_engine/src/pcie_endpoint_driver.v:473-478 | in every run of both sides and the arbiter, with any stalls, the beats the endpoint has taken, with the one on the bus, are exactly those of the TLPs begun, one after the other and never interleaved: each with the words given for it in order, its first beat and its last marked, and all but the last TLP whole |
| BusTlps.TxOn | hw/my_engine/src/tx_rd_host_mem.v:159-314 | a clock of the transmit side: a read request has two beats, a completion and a notification three, the completion's last of four bytes |
| BusTlps.RxOn | hw/my_engine/src/rx_wr_pkt_to_hugepages.v:245-403 | a clock of the receive side: a data TLP has a header, the address and at least one qword, a page's end three beats |
| BusTasks.TasksAreDone | hw/my_engine/src/tx_rd_host_mem.v:119-159 | in every run the transmit side's TLPs are those of the tasks it took up in its turns, in order, a read request before a completion before a notification before an interrupt, the last perhaps about to begin; and every interrupt asked for by either side is shown until it is taken, once |
| RxBusDriverIs.DriverIsSender | hw/my_engine/src/rx_wr_pkt_to_hugepages.v:245-343 | the bus driver and the sender of `RxTlpSender` are one machine: the same states and signals in every clock of a data TLP |
| RxBusDriverIs.DriverServes | hw/my_engine/src/rx_wr_pkt_to_hugepages.v:218-243 | what it decides in state s1 about the request shown is what serving it asks for |
| RxBusDriverIs.DriverIsWriter | hw/my_engine/src/rx_wr_pkt_to_hugepages.v:208-403 | and it goes through the states of `HugePages` clock by clock |
| HugePages.PageControl.Tick | hw/my_engine/src/rx_wr_pkt_to_hugepages.v:115-168 | a clock of the status registers, the giving and freeing machines and the writer's states between pages |
| HugePages.PageControl.SetStatus | hw/my_engine/src/rx_huge_pages_addr.v:58-63 | unlocking sets a page's status and wins over freeing, which clears it |
| HugePages.StepKeeps | hw/my_engine/src/rx_huge_pages_addr.v:58-113 | every clock keeps who has which page, if the host unlocks only pages it holds |
| HugePages.NeverWritesToHost | hw/my_engine/src/rx_wr_pkt_to_hugepages.v:210-386 | in every run no data and no header goes to a page that has been returned and not unlocked since |
| HugePages.ReturnsAlternate | hw/my_engine/src/rx_wr_pkt_to_hugepages.v:115-168 | in every run pages come back strictly alternately, each at most once per unlock |
| HugePages.UnlockedIsTaken | hw/my_engine/src/rx_wr_pkt_to_hugepages.v:138-162 | from any state that keeps the invariant in which the writer waits and the page next in turn has been unlocked, the writer is filling that page after one to three clocks, whatever else happens |
| HugePages.ComesBack | hw/my_engine/src/rx_wr_pkt_to_hugepages.v:345-403 | with an endpoint that takes every beat a page that is ended is back with the host after five clocks at most |
| HugePages.PagesGoRound | hw/my_engine/src/rx_wr_pkt_to_hugepages.v:138-162 | there are runs with any number of pages returned |
| HugePages.ThreePages | hw/my_engine/src/rx_wr_pkt_to_hugepages.v:138-162 | page one, page two, and page one again |
| RxHost.StepKeeps | hw/my_engine/src/rx_wr_pkt_to_hugepages.v:115-413 | every edge, unlocking and write by the host keeps the clocked receive path, the ownership of the pages and the host's memory together: a page in use holds what it held when it was unlocked and the TLPs so far on top, one that waits is untouched |
| RxHost.HostFindsFrames | sw/driver/nf10_lbuf.c:433-498 | in every run, at whatever multiples of 2 MB the host places its two pages and whatever it writes to memory that is not with the device, the packets on the pages as it finds them in its memory at their return are exactly the first of the committed frames, and in a clear run of the good frames on the wire; what it hands up are those of acceptable length without their last four bytes |
| RxHost.LeavesHostAlone | hw/my_engine/src/rx_wr_pkt_to_hugepages.v:208-413 | and no edge changes a block of memory that is with the host |
| DescRing.PushAppends | sw/driver/nf10_lbuf.c:45-46 | for any ring size, storing at the producer index appends to the occupied span |
| DescRing.PopTakesOldest | sw/driver/nf10_lbuf.c:304-313 | for any ring size, clearing at the consumer index takes the oldest descriptor |
| DescRing.FullAndEmptyIff | sw/driver/nf10_lbuf.c:215-228 | the NULL address tells full from empty: the tests hold exactly for all and for no slots occupied |
| DriverTx.TxDriver.CheckTxCompletion | sw/driver/nf10_lbuf.c:295-314 | the completion loop, as its specification has it, conserving all buffers |
| DriverTx.CheckMoves | sw/driver/nf10_lbuf.c:299-314 | it moves the completed descriptors at the head of the ring to the garbage list, all of them, in order, and no others |
| DriverTx.TxDriver.CleanTxPendingGc | sw/driver/nf10_lbuf.c:277-293 | it frees the pending buffers up to the first with the address, or all, and says whether none is left |
| DriverTx.ToFree | sw/driver/nf10_lbuf.c:282-289 | how many that are |
| DriverTx.TxDriver.StartXmit | sw/driver/nf10_lbuf.c:724-807 | a buffer is taken over exactly when the ring has room after completed ones are out, and then it is the last in it |
| DriverTx.CleanConserves | sw/driver/nf10_lbuf.c:277-293 | cleaning keeps freed, pending and posted buffers together in their order |
| DriverTx.TxDriver.CleanTxIrq | sw/driver/nf10_lbuf.c:809-846 | with any writes of the device between any two of its accesses, it exits having cleaned by the address that is the last written both when it read the word and when it exchanged it, and with none written in between if the addresses are distinct |
| DriverTx.NoneSince | sw/driver/nf10_lbuf.c:839 | of distinct addresses, the same at two moments means that nothing was written in between |
| DriverTxRuns.StepKeeps | sw/driver/nf10_lbuf.c:759-846 | transmission, completions, reports of any address at any time and the cleaner's steps, interleaved at will, keep the invariant |
| DriverTxRuns.BuffersConserved | sw/driver/nf10_lbuf.c:215-313 | in every run, whatever is reported, freed, pending and posted buffers together are those accepted, in order, and full and empty are told apart |
| DriverTxRuns.LostIff | sw/driver/nf10_lbuf.c:824-843 | in every run the exchange leaves with a report unseen exactly if the latest report since the read of the word repeats the address read, and with none unseen exactly if there was no report |
| DriverTxRuns.WindowIff | sw/driver/nf10_lbuf.c:833-843 | from the comparison on, with any reports before it and between it and the exchange: the cleaner leaves exactly if each of the two either is empty or ends with the address it went by, and has then lost a report exactly if there was one |
| DriverTxRuns.NoReportIsLost | sw/driver/nf10_lbuf.c:824-843 | in every run in which no report between the read of the word and the exchange repeats the address read, the cleaner leaves by its exchange only when its last round went by the device's last report |
| DriverTxRuns.NothingLeftBehind | sw/driver/nf10_lbuf.c:811-846 | in such a run at any moment a report waits in the device's word or a round has gone by the last one |
| DriverTxRuns.OutInFive | sw/driver/nf10_lbuf.c:811-846 | wherever the cleaner stands, and whatever transmission and completions do, after five of its steps without a report it is out and the word is zero |
| DriverTxRuns.NextRoundGoesByIt | sw/driver/nf10_lbuf.c:811-831 | a report that waits while it is out is what its next round goes by |
| DriverTxDevice.StepKeeps | sw/driver/nf10_lbuf.c:295-314 | with a record of what the device has completed: every step keeps that a mark in a completion word says that the buffer now in the slot has been |
| DriverTxDevice.OnlyCompletedLeave | sw/driver/nf10_lbuf.c:299-314 | in every run with a device that marks only slots with a buffer it has not completed yet, every buffer in the garbage list and every one freed has been completed while it was in the ring |
| DriverTxDevice.SlotsReusedAfter | sw/driver/nf10_lbuf.c:759-773 | and no slot is used again before the buffer in it has been completed |
| DriverTxDevice.PositionIs | sw/driver/nf10_lbuf.c:45-46 | the record names the right one: the position it gives a slot is that of the slot's buffer among all taken over |
| DriverTxOrder.FreedOnlyIfReported | sw/driver/nf10_lbuf.c:277-293 | in every run with a device that reports in posting order, addresses being used again for later buffers, buffers are freed oldest first, and none before it or a later one has been reported |
| DriverTxOrder.RoundFrees | sw/driver/nf10_lbuf.c:825-829 | a round frees the reported buffer exactly if that has left the ring by then, and then exactly those up to it; otherwise all that have left the ring |
| DriverTxOrder.ReportedAreFreed | sw/driver/nf10_lbuf.c:825-829 | for a device that marks completion before it reports, in every run, a round without a report between its check and its read frees exactly the reported buffers |
| DriverTxOrder.LateReportStays | sw/driver/nf10_lbuf.c:827-843 | a report between the two is used up without its buffer being freed |
| DriverTxOrder.KeptUntilReport | sw/driver/nf10_lbuf.c:811-819 | and the buffer stays until the next report |
| DriverTxOrder.OnlyRecycledIsLost | sw/driver/nf10_lbuf.c:824-843 | in every run with such a device, a report that the exchange loses is of a buffer posted since the round read the word, at the address of the buffer that it went by and has freed |
| DriverTxOrder.RecycledIsLost | sw/driver/nf10_lbuf.c:824-843 | and such a report is lost: a buffer posted at that address before the comparison and reported there, with two more steps of the cleaner, has been reported unseen and not freed |
| SkbPool.FillTo | sw/driver/skbpool.c:35-70 | refilling stops, with at least the minimum and less than a batch more if it began below it, and what the counter gains is what the pool gains |
| SkbPool.TakeKeeps | sw/driver/skbpool.c:97-123 | taking entries, also across a pool switch or a single allocation, gives out no entry twice |
| SkbPool.HandedUpOnce | sw/driver/nf10_lbuf.c:415-430 | in every run each filled buffer is handed up once or still queued, and every entry is in one place |
| SkbPool.NothingIsLost | sw/driver/nf10_lbuf.c:415-498 | in every run all packets delivered are in buffers handed up or queued, in their order, and every entry that the refills or single allocations have made is stored or in such a buffer |
| SkbPool.OrderKeptIff | sw/driver/nf10_lbuf.c:500-506 | the worker hands packets up in the order they came exactly when at most one batch is queued |
| SkbPool.PromptKeepsOrder | sw/driver/nf10_lbuf.c:415-430 | with a worker that never finds two batches all packets go up in order |
| SkbPoolChains.Pool.SkbpoolAlloc | sw/driver/skbpool.c:97-123 | the next entry of the chain, after splicing the whole pool or a new entry to its end if there is none, all chains staying acyclic and disjoint and the counter that of the pool's entries |
| SkbPoolChains.Pool.SkbpoolWorker | sw/driver/skbpool.c:35-70 | batches are chained and spliced in front of the pool until there are enough, by the counter and in the pool |
| SkbPoolChains.Pool.Deliver | sw/driver/nf10_lbuf.c:465-506 | a delivery fills one entry per packet, cuts the chain behind the last, and queues the filled part as one batch |
| SkbPoolChains.Pool.RxWorker | sw/driver/nf10_lbuf.c:415-430 | everything queued is handed up once, then freed, and the other chains are as before |
| SkbPoolChains.Redirected | sw/driver/skbpool.c:115-116 | pointing the end of a chain's first part elsewhere leaves that part followed by the other chain |
| SkbPoolChains.DeliveryIsStep | sw/driver/nf10_lbuf.c:500-506 | a delivery on the chains is the delivery on the lists, the queue giving the latest batch first |
| XenCopier.PiecesCover | sw/driver/xen_nfback.c:807-851 | the chunks of a page-aligned buffer start on pages, follow each other without gap or overlap and cover its bytes exactly |
| XenCopier.StepKeeps | sw/driver/xen_nfback.c:789-881 | every round of the copying and answering loops, and whatever the front end does in between, keeps the invariant |
| XenCopier.OneResponseEach | sw/driver/xen_nfback.c:764-784 | in every run the front end reads one response per request, in order, with the request's id, and with the copied length if that copy succeeded or an error if it did not, modulo 2^32 indices and all |
| XenCopier.WithinArrays | sw/driver/xen_nfback.c:851-856 | a call never collects more than a ring of copies if the front end keeps to a ring of unanswered requests, and between calls all requests taken are answered |
| XenCopier.BuffersCopiedOnce | sw/driver/xen_nfback.c:807-878 | however calls are interrupted, the pieces copied are those of the posted buffers, each once, in order, and a buffer is released only after all its bytes |
| XenBackend.Xenvif.SlotsAvailable | sw/driver/xen_nfback.c:742-762 | whether enough requests wait, by 32-bit subtraction; with the front end pushing at any time, no is said only with the event asked for at the next request, and after having looked again since |
| XenBackend.Xenvif.CopyPage | sw/driver/xen_nfback.c:822-846 | one page into one request, within the arrays, as one round of the copier's system |
| XenBackend.Xenvif.MakeRxResponse | sw/driver/xen_nfback.c:764-784 | one response, as one round of the copier's system, which records the result it answers with |
| XenBackend.Xenvif.RxAction | sw/driver/xen_nfback.c:789-881 | with the front end and the receiving side acting in every gap, a call is a run of the copier's system: it copies until no buffer or no request is left, never overruns its arrays, leaves every request taken answered, and answers with the results of its copies in order |
| Ring.SubIsDistance | hw/my_engine/src/rx_mac_interface.v:97 | the difference of two pointers is the distance of their counts when that fits the register |

The ring's read port has a register for the address and one for the qword
(hw/my_engine/coregen/rx_buffer/rx_buffer.xco:51-56); `RxTlpSender` has both.

Where code and comments differ the model follows the code: the comment at
hw/my_engine/src/tx_rd_host_mem.v:167 gives a read request's length as 128 dwords, the code sends twice the
requested qwords.

## Left out

- RxRoundTrip.RoundTrip: in a run with a frame that begins in the clock after a late one the committed frames are those of the interface, not of the wire; `RxFraming.NextFrameIff` says what they are for the next frame if it has data before its last beat and does not meet the nearly full ring.
- RxWrPktToHugepages.HugepageWriter.SendTlp: a TLP is one step, as it is for the stalls of `RxTlpSender.AsServedIff`.
- RxClocked.RoundTrip: as in `RxPipeline`, `RxRoundTrip` and `RxHost`, no TLP's header is stalled for an even number of clocks other than none, and no last beat at all; `RxTlpSender.AsServedIff` and `RxTlpSender.NeverAheadIff` say that this is what it takes for a TLP to be the one these modules have.
- RxHost.HostFindsFrames: pages lie at multiples of their 2 MB; an unlocking brings the page's address with it, the write of the address registers before it being left out; the host looks at a page when it comes back.
- RxTriggerProgress.ClosedInTime: clocks in which the trigger waits for the writer are not counted, in `RxProgress.ReturnedInTime` neither; how long the writer takes depends on the host's pages and on the bus.
- TxEngine.ReadOutIsPosted: completions of a single dword and of 1024 dwords are excluded, for the reasons `TxReassembly.SingleDwordIsMissed` and `TxReassembly.CountsQwordsIff` give; `TxSplit` says which addresses rule out the first. The buffers' sizes are the safe ones of `TxRequestOverrun.SafeSizeIff`, and clocks of state s1 without data those of `TxEngine.StrayIff`.
- TxRequest.RequestsTileBuffer: a posted size of zero is excluded, because of what `TxRequest.LengthIsSize` says about it.
- RxFraming.FramedOn: a frame is limited by the ring, so the 16-bit byte counter's wrap is not reached; MAC beats are full except a frame's last, and good or bad come with frames only.
- DriverTxDevice.OnlyCompletedLeave: the completion words carry no mark at the start, as memory that comes cleared; what a device does that marks a slot twice, or an empty one, is not claimed.
- DriverTxRuns.NoReportIsLost: reports of address zero are excluded, here and in `DriverTxOrder`; the source takes a word of zero for no report.
- DriverTx.TxDriver.CleanTxPendingGc: the source reads the descriptor's address after freeing the list entry; the model reads it from the copy it has taken.
- DriverTx.TxDriver.StartXmit: expanding the headroom and pushing the eight-byte header are not modelled; mapping succeeds.
- SkbPoolChains.Pool.SkbpoolAlloc: the counter of pooled entries is set together with the list; the interleaving of the two with a concurrent refill is not modelled. Entries are numbered cells of one map, not kernel objects.
- The rings' one-clock write latency; a registered copy that lags by a clock is modelled where it matters (differences, read pointers, completed count), otherwise not.
- The notifications and interrupts of the transmit side, and the claim that a notified buffer has been read.
- The transmit MAC interface; the transmit side's address synchronisers, which repeat the receive side's.
- Bytes read beyond the 2 MB page when a malformed length points there: they are an arbitrary argument.
- Allocation failures, teardown, the user-space mapping mode, xenbus, PCI set-up, ethtool, statistics.
