# Verification of the power-supply controller

Dafny models and proofs for the firmware of a four-channel power-supply controller: its C
code (network services, snapshots, setpoints, settings) and its VHDL (sample ring, fault
logic, fast setpoints, DAC correction). `dafny verify dfyconfig.toml` checks everything.

Code that changes state is a class whose methods follow the source's branches, each proved
against a function of the state; what the source promises is then proved of those functions,
over every input and every run.

- **TFTP** (`TftpServer`, `TftpSession`, `TftpTransfer`, `TftpLimit`, `TftpReopen`,
  `TftpCompletes`). One global session with a 16-bit block number that wraps. A stop-and-wait
  client, the server and a network that loses and repeats datagrams are one transition system;
  the invariant gives every packet in flight an unbounded number. Files of any length arrive
  whole over a network that keeps the order. Over one that reorders, writes do exactly up to
  65535 full blocks and reads exactly up to 65536 blocks; for every larger file there is a run
  that breaks the transfer. When late requests open the file again and what is left of one
  session reaches the next, small writes are still safe, and small reads exactly when no buffer
  is missing. Every transfer can finish, also when an acknowledgement or a block is lost on the
  way. A silent peer, be it one that only sent its request, is dropped after exactly 16 or 11
  timer expiries.
- **Snapshots** (`SnapshotRing`, `SnapshotTrigger`, `SampleClock`, `SnapshotSend`, `ByteOrder`).
  A ring of 200000 records is written forever; it holds a window of the infinite log exactly when
  the window is written and not overwritten, and a snapshot then equals that window. Every number
  sent is traced, by name, from the converter that read it to its column. Sends of the polled
  trigger machine are exactly its activations, a fixed number of polls later. Whether those polls
  leave time enough for the window depends on the sample clock, the tick and the polling period:
  the exact condition is proved, and the source's constants do not meet it.
- **Faults** (`FaultBlock`). Eleven debounced conditions, latches, a clear pulse, masks and
  the on-output interlock, clock edge by clock edge. The thirteen bits are shown not to
  disturb each other; each is then a history of its own ticks, in terms of what came in, and the
  channel is tripped if and only if an enabled, unmasked bit saw its fault since the last clear
  or reset.
- **PSC server** (`PscServer`, `PscFraming`). The server leaves a trace of events, each with what
  came of it; every run of its loop leaves a lawful one with nothing left due, and what that
  means (no descriptor used after close, callbacks that alternate, failures that drop exactly the
  client they are of, a heartbeat looked at in every turn) is proved of traces alone. Framing is
  proved over streams that move as few bytes as they like: a sending loop and a receiving loop
  deliver a list of messages, or a beginning of it when a call fails.
- **Ramps** (`SmoothRamp`). The three-phase ramp in closed form over exact numbers, with
  rounding of its constants as an explicit error.
- **Fast feedback** (`FofbLink`). The packet generator and the byte-per-clock decoder, end to
  end over any sequence of frames.
- **DAC correction** (`DacGainOffset`) and **settings** (`QspiSettings`).

Where the code does not do what one would expect, the exact condition is proved:

- The guard on large ramp steps zeroes constants over 511 and starts the ramp all the same.
  `SmoothRamp.GuardedLands` says exactly when the ramp still lands, and `SmoothRamp.GuardSpoils`
  is a change that it spoils. `abs` is the integer one, so the limit is 512 and not 511.
- The ramp's output can end a code below the target: exactly when the rounding errors of its two
  constants, each as often as the constant is taken, add up to less than zero
  (`SmoothRamp.OutputLands`; `SmoothRamp.OneCodeLow` is such a ramp).
- The older ramp falls short of its target by a known part of one step
  (`SmoothRamp.OldFallsShort`).
- The DAC's sign test saturates properly exactly for gains over 0 and up to 2.0 in 20-bit
  mode, and its comparison exactly for gains over -4.0 and up to 4.0 in 18-bit mode
  (`DacGainOffset.WideGains`, `DacGainOffset.NarrowGains`).
- A snapshot waits for a number of polls, and polls are paced by the tick counter, not by the
  samples. Every schedule of polls finds the window written if and only if
  `SnapshotSend.LateEnough` says so of the constants. At the source's own (100 ms, a tick each
  millisecond, 9961.7 Hz) it does not: polls one period apart can leave the last 201 of 50000 records
  after a user, fault or error trigger unwritten, and the last 40 of 8000 after an injection
  trigger (`SnapshotSend.SourceTooEarly`); those rows show records of the lap before
  (`SnapshotSend.SendWindow`). A period of 101 ms is the shortest that is long enough
  (`SnapshotSend.PeriodNeeded`).
- When a read finds no buffer for a block, the file position stays and the block number goes on.
  So an acknowledgement left from an earlier session can make a later one send each block under
  the next number: reads over such a network are safe if and only if a buffer is found for every
  block, or the file is one block (`TftpReopen.ReadsSafe`; `TftpReopen.Torn` is the run).
- The 16-bit block number carries a transfer over a reordering network only up to its wrap
  (`TftpLimit.ReorderLimit`; `TftpLimit.Breaks` is the run beyond it).
- A reset of the fault block clears the counters of bits 0 to 5 only. Those start afresh
  (`FaultBlock.ResetStartsAfresh`); the others come up as soon as the count from before the
  reset and the ticks since make up the streak (`FaultBlock.Debouncing`, where a reset does not
  break the streak of bits 6 to 10, and `FaultBlock.ResetKeepsCount`).
  `FaultBlock.ResetIsNoFreshStart` is a run with a fault at the first tick after a reset.
- A fault limit is compared with its counter for equality. When it is lowered below a count that is
  running, the fault comes up only after the counter has wrapped (`FaultBlock.LoweredLimit` says
  after how many ticks).
- A TFTP client whose acknowledgement of the request is lost has its request refused when it repeats
  it, since the session is open (`TftpSession.RequestRefused`); every other lost acknowledgement but
  the last is made good (`TftpCompletes.WriteCompletes`).
- Bit 4 only triggers snapshots and never trips (`FaultBlock.MaskWord`, `FaultBlock.TripHasCause`).
- A TFTP request that fails to open leaves an extra timer armed. An open session has exactly one
  timer if and only if none was left over when it opened (`TftpSession.OneTimer`);
  `TftpSession.FailedOpenLeavesTimer` is how one comes to have two.
- The heartbeat does not see whole turns of the tick counter
  (`PscServer.Server.CheckHeartbeat`).

## Model

| member | source | states |
|---|---|---|
| TftpServer.Server.CloseHandle | src/sw/src/tftp_server.c:97-115 | the session after a close: no peer, no file, no held packet, one timer fewer |
| TftpServer.Server.ResendData | src/sw/src/tftp_server.c:156-171 | exactly the held packet goes to the session's peer, or nothing when no buffer is free |
| TftpServer.Server.SendData | src/sw/src/tftp_server.c:173-201 | the next chunk is read, held and sent; no buffer leaves nothing held; a failed read is reported and closes |
| TftpServer.Server.RecvRequest | src/sw/src/tftp_server.c:225-280 | requests, with every refusal, arming a timer before anything can fail; a write is answered with ACK 0 |
| TftpServer.Server.RecvData | src/sw/src/tftp_server.c:282-320 | the expected block is written and acknowledged, its predecessor acknowledged again, anything else refused; a short block or a failed write closes |
| TftpServer.Server.RecvAck | src/sw/src/tftp_server.c:322-356 | only an acknowledgement of the current block moves a read; after a short block it closes |
| TftpServer.Server.Recv | src/sw/src/tftp_server.c:203-364 | a stranger changes nothing; the peer's packet resets the retry state and is handled by its kind |
| TftpServer.Server.Tmr | src/sw/src/tftp_server.c:366-389 | an expiry re-arms, and when late resends at most five times, then closes |
| TftpSession.StepConsistent | src/sw/src/tftp_server.c:97-115 | every event keeps the session consistent; in particular an open one has a timer armed |
| TftpSession.RunConsistent | src/sw/src/tftp_server.c:366-389 | the same over every run |
| TftpSession.SilentRun | src/sw/src/tftp_server.c:366-389 | while its peer is silent a session only ages: each expiry uses one unit of a measure, and all it sends is the held packet, at most once per late expiry |
| TftpSession.PatienceRunsOut | src/sw/src/tftp_server.c:366-389 | from any open session, the expiry that uses up the last of its patience closes it and none before, with no more resends than are left |
| TftpSession.SilentPeerIsDropped | src/sw/src/tftp_opts.h:70-86 | after the last packet of its peer, the opening request included, exactly 16 expiries close an open session when a packet is held, with at most 5 resends of it, and 11 with none when nothing is held; strangers in between change nothing |
| TftpSession.OneTimer | src/sw/src/tftp_server.c:225-280 | an open session has exactly one timer, throughout, if and only if none was left over when it opened |
| TftpSession.FailedOpenLeavesTimer | src/sw/src/tftp_server.c:225-262 | a request that fails to open leaves its timer, and the next session runs with two |
| TftpSession.WriteOpens | src/sw/src/tftp_server.c:256-274 | a request that opens the file to write is answered with an acknowledgement of block 0, and the session expects block 1 |
| TftpSession.RequestRefused | src/sw/src/tftp_server.c:210-262 | each reason to refuse a request, and the error that goes to whoever asked |
| TftpSession.DataAnswered | src/sw/src/tftp_server.c:296-316 | the expected block is written and acknowledged, the one before it acknowledged again and not written, any other an error and not written |
| TftpSession.FailedWriteEnds | src/sw/src/tftp_server.c:299-306 | a failed write is an error and ends the session |
| TftpSession.TurnedDown | src/sw/src/tftp_server.c:285-334 | the errors that answer packets without a session, of the wrong direction, with a wrong number, or of no known kind |
| TftpSession.ReadOpens | src/sw/src/tftp_server.c:256-277 | a read starts by sending block 1 to the requester |
| TftpSession.ReadAdvances | src/sw/src/tftp_server.c:336-353 | an acknowledgement of the current block sends exactly the next block of the file, or closes at the end or on a read error |
| TftpSession.ReadWaits | src/sw/src/tftp_server.c:336-340 | any other event leaves the block in place and sends no DATA but an identical copy of it |
| TftpSession.ReadStep | src/sw/src/tftp_server.c:322-356 | DATA block n carries bytes 512(n-1) to 512n, repeats are identical, each accepted acknowledgement advances by one, and the session ends if and only if the short block is acknowledged, a read fails or patience runs out |
| TftpSession.ReadRun | src/sw/src/tftp_server.c:322-389 | over any run that stays open the block served is the first one plus the acknowledgements accepted, across any number of wraps, and every DATA packet sent is one of the blocks between |
| TftpTransfer.NumberDecides | src/sw/src/tftp_server.c:296-316 | a 16-bit number tells the expected packet from every other that can be in flight |
| TftpTransfer.WriteServerHears | src/sw/src/tftp_server.c:282-320 | whatever client packet is delivered, the server takes the next block or none |
| TftpTransfer.ReadServerHears | src/sw/src/tftp_server.c:322-356 | whatever acknowledgement is delivered, the server advances by one block or none |
| TftpTransfer.NetStep | src/sw/src/tftp_server.c:203-389 | every action of client, server, network, strangers and timer keeps the invariant that ties the packets in flight to both sides |
| TftpTransfer.RunInv | src/sw/src/tftp_server.c:203-389 | so does every run, in order for any file, in any order for files of at most 65536 blocks |
| TftpTransfer.TransferSafe | src/sw/src/tftp_server.c:282-356 | in order for any file, in any order for writes of at most 65535 full blocks and reads of at most 65536 blocks: what has been carried is always whole blocks from the start of the file; a client that saw the end, and a server that closes for no bad reason, has carried all of it |
| TftpLimit.ReorderLimit | src/sw/src/tftp_server.c:225-356 | a transfer is safe under every loss, repetition and reordering if and only if it is a write of at most 65535 full blocks or a read of at most 65536 blocks, or the server neither sent nor holds its first answer |
| TftpLimit.Breaks | src/sw/src/tftp_server.c:282-356 | for every larger file, a run in which the client sees the end of a write that is not whole, or a reader holds bytes that are not the file |
| TftpReopen.WriterHeard | src/sw/src/tftp_server.c:282-320 | a write session takes its next block and no other of the file, whatever DATA of earlier sessions is delivered |
| TftpReopen.ReaderHeard | src/sw/src/tftp_server.c:322-356 | a read session that holds its block is moved by that block's acknowledgement and no other, of whatever session |
| TftpReopen.TheirsStays | src/sw/src/tftp_server.c:203-220 | sessions of other peers stay theirs, and send this client nothing |
| TftpReopen.WorldStep | src/sw/src/tftp_server.c:203-389 | every action keeps the invariant over all sessions of the file, with an idle server hearing late packets and others opening sessions |
| TftpReopen.WritesSafe | src/sw/src/tftp_server.c:225-320 | every session of a small write writes whole blocks from the start of the file; the disk is what it was, covered with the first blocks of the file; once the client saw the end, with all of it, whatever comes after |
| TftpReopen.ReadsSafe | src/sw/src/tftp_server.c:173-201 | reads of a small file over any number of sessions are safe if and only if the server finds a buffer for every block, or the file is one block |
| TftpReopen.Torn | src/sw/src/tftp_server.c:173-201 | for every file of two blocks or more, a run in which a missing buffer and a late acknowledgement give the client a block twice |
| TftpCompletes.WriteCompletes | src/sw/src/tftp_server.c:225-320 | from an idle server a file of any length can be written whole: the client sees the end, the disk has it, the server is idle again; with no loss, or with any acknowledgement but the first and the last lost |
| TftpCompletes.ReadCompletes | src/sw/src/tftp_server.c:225-389 | the same of reads: with no loss, or with any one block lost and sent again by the timer |
| TftpCompletes.RepeatAnswered | src/sw/src/tftp_server.c:313-315 | a block that comes once more is acknowledged again and not written |
| SnapshotRing.RingWriter.WriteRecord | src/hw/hdl/adc2ddr.vhd:125-228 | the record goes to the slot that the count names, memory agrees with the infinite log, and the base stays 160 times the count |
| SnapshotRing.LatestIs | src/hw/hdl/adc2ddr.vhd:212-228 | a slot shows record r exactly while r is among the last 200000 |
| SnapshotRing.WindowIntact | src/sw/src/snapshots.c:257-319 | a window is intact if and only if its last record is written and its first not overwritten |
| SnapshotRing.CopyDataChan | src/sw/src/snapshots.c:87-252 | the channel's ten columns of each record go through the advancing pointer, and nothing else is written |
| SnapshotRing.UnwrapStart | src/sw/src/snapshots.c:279-294 | the two pieces before the trigger and the one after it join into the circle |
| SnapshotRing.UnwrapEnd | src/sw/src/snapshots.c:296-309 | the same when the end wraps |
| SnapshotRing.ReadDMABuf | src/sw/src/snapshots.c:256-317 | for every aligned trigger and window up to 200000 records: never both wraps, nothing outside the ring read, row j is slot idx - pre + j of the circle, exactly 10 (pre + post) numbers written |
| SnapshotRing.HoldsNext | src/hw/hdl/adc2ddr.vhd:212-228 | one more record keeps memory and log in agreement |
| SnapshotRing.RowByName | src/sw/src/snapshots.c:136-158 | from the burst to the row, for every channel: two DCCTs, DAC monitor, voltage, ground current, spare, regulator and error, each times its converter's factor and its own scale factor |
| SnapshotRing.RecordFrame | src/hw/hdl/adc2ddr.vhd:157-207 | header, slot counter, digital words and tags of a record |
| SnapshotRing.SnapshotShowsLatest | src/sw/src/snapshots.c:257-319 | intact or not, each row is the latest record of its slot |
| SnapshotRing.Snapshot | src/sw/src/snapshots.c:257-319 | snapshot equals history: records t - pre to t + post - 1 of the log; and each column is what that converter of the channel read at that trigger, in its unit |
| SnapshotTrigger.PollCases | src/sw/src/snapshots.c:362-383 | what one poll does to an idle, a counting and a due trigger |
| SnapshotTrigger.AlwaysTraced | src/sw/src/snapshots.c:362-383 | an active trigger holds the address of its activation, that many polls ago |
| SnapshotTrigger.SendsAreActivations | src/sw/src/snapshots.c:325-383 | conservation: a poll sends an address if and only if it was activated exactly posttrigpts/1000 polls before |
| SnapshotTrigger.AddressFrozen | src/sw/src/snapshots.c:393-395 | between activation and sending every other latch is ignored |
| SnapshotTrigger.SendsCounted | src/sw/src/snapshots.c:325-334 | a trigger's count is the number of its waveforms sent |
| TickCounter.ElapsedNeverLong | src/sw/src/pscdata.c:52-53 | the wrapping tick difference never exceeds the true one |
| SnapshotTrigger.RunsSpaced | src/sw/src/pscdata.c:46-71 | the runs among any polls are at least one fast period apart, however often the counter wraps |
| SnapshotTrigger.RunsSpacedBetween | src/sw/src/pscdata.c:46-71 | any two runs are that many periods apart |
| SnapshotTrigger.SendWaits | src/sw/src/snapshots.c:373-381 | a waveform leaves at least posttrigpts/1000 periods after its trigger was seen |
| SnapshotTrigger.PscData.Poll | src/sw/src/pscdata.c:46-71 | when the fast and slow work runs, and what the counters become |
| SnapshotTrigger.PscData.PollAll | src/sw/src/pscdata.c:46-71 | polled at any true times, the code runs the snapshot work at exactly the run times that the spacing lemmas are about |
| SnapshotTrigger.Snapshots.CheckForTriggers | src/sw/src/snapshots.c:389-477 | every trigger sees its own register while idle |
| SnapshotTrigger.SendsAre | src/sw/src/snapshots.c:549-558 | the send loop sends exactly the due triggers |
| SnapshotTrigger.SendsInOrder | src/sw/src/snapshots.c:549-558 | waveforms go out by channel, and of one channel user, fault, error, injection |
| SnapshotTrigger.Snapshots.SnapshotProcess | src/sw/src/snapshots.c:542-561 | one pass polls every trigger exactly once, independently of the others |
| SampleClock.NcoLogic.Clock | src/hw/hdl/nco_srocgen.vhd:22-46 | one edge of the oscillator, reset and resync included |
| SampleClock.Settles | src/hw/hdl/nco_srocgen.vhd:22-46 | two clocks after any state, and after a resync, the flip-flops follow the accumulator; after a resync it starts from zero |
| SampleClock.ResetStarts | src/hw/hdl/nco_srocgen.vhd:26-31 | a reset starts the oscillator from zero, with no pulse while it settles |
| SampleClock.PulsesAre | src/hw/hdl/nco_srocgen.vhd:33-43 | the pulses of any number of clocks: the whole turns that the step makes of the phase |
| SampleClock.PulsesBetween | src/hw/hdl/nco_srocgen.vhd:33-43 | between two clocks come the pulses of the span in between, to within one |
| SnapshotSend.WindowWritten | src/sw/src/snapshots.c:373-381 | on every schedule of polls, at least the computed number of records from the latched one on is written when a run sends |
| SnapshotSend.WorstCase | src/sw/src/snapshots.c:373-381 | for every trigger and setup, a schedule that reaches that bound |
| SnapshotSend.LateEnough | src/sw/src/snapshots.c:366-381 | every schedule finds the window written if and only if the constants make the bound as long as the window |
| SnapshotSend.PeriodNeeded | src/sw/src/main.c:222-226 | with the source's sample clock, windows and tick, that holds if and only if the period is 101 ms or more |
| SnapshotSend.SourceTooEarly | src/sw/src/pscdata.c:17 | with its period of 100 ms, schedules that leave 201 records of a long window unwritten, and 40 of a short one |
| SnapshotSend.SendWindow | src/sw/src/snapshots.c:257-383 | row by row what a run sends: the window's record if written and not overwritten, else that of the lap before; the log's own window when the constants or the schedule are late enough |
| ByteOrder.HtonConv | src/sw/src/snapshots.c:21-33 | every word of the message is reversed in place, and no other byte changes |
| ByteOrder.ConvertedTwice | src/sw/src/snapshots.c:21-33 | converting twice gives the message back |
| ByteOrder.NetworkOrder | src/sw/src/snapshots.c:336-352 | words as the processor keeps them become words in network order |
| FaultBlock.FaultLogic.MaskProcess | src/hw/hdl/fault_block.vhd:109-120 | every bit of the mask registers takes in its latch where the mask word and the enables let it |
| FaultBlock.MaskWord | src/hw/hdl/fault_block.vhd:112-117 | the mask words hide exactly bit 4, and for the main dipole bits 8 and 9 too |
| FaultBlock.FaultLogic.ClearProcess | src/hw/hdl/fault_block.vhd:157-169 | the clear pulse, from a rising edge of the clear bit to a tick |
| FaultBlock.FaultLogic.DacProcess | src/hw/hdl/fault_block.vhd:123-210 | the last two setpoints and whether they differ |
| FaultBlock.FaultLogic.Checks | src/hw/hdl/fault_block.vhd:257-470 | the eleven checks of a tick, each on its own bit |
| FaultBlock.FaultLogic.StartupProcess | src/hw/hdl/fault_block.vhd:242-254 | the startup and running states |
| FaultBlock.FaultLogic.LatchFaults | src/hw/hdl/fault_block.vhd:492-500 | the latch loop takes in faults as they were before the edge |
| FaultBlock.FaultLogic.FaultProcess | src/hw/hdl/fault_block.vhd:219-506 | the main process, reset included |
| FaultBlock.FaultLogic.Clock | src/hw/hdl/fault_block.vhd:101-506 | all processes of one edge, none seeing another's new values |
| FaultBlock.BitsApart | src/hw/hdl/fault_block.vhd:219-506 | the thirteen bits do not disturb each other |
| FaultBlock.CheckedStep | src/hw/hdl/fault_block.vhd:260-273 | one check counts the streak of seen ticks up to the limit and faults on the one after it |
| FaultBlock.Debouncing | src/hw/hdl/fault_block.vhd:238-470 | with a constant limit, after a tick the fault bit is set if and only if the last limit + 1 ticks all saw the condition with no clear |
| FaultBlock.TickIsTrigger | src/hw/hdl/fault_block.vhd:139-153 | a 10 kHz trigger is a tick of the fault logic three edges later, unless a reset comes between |
| FaultBlock.ClearPulseMeans | src/hw/hdl/fault_block.vhd:157-169 | the clear pulse is up if and only if the clear bit has risen and no tick has come since |
| FaultBlock.MovesMeans | src/hw/hdl/fault_block.vhd:123-210 | the setpoint counts as moving if and only if those of the last two triggers differ |
| FaultBlock.StartMeans | src/hw/hdl/fault_block.vhd:242-251 | the supply is starting if and only if it was turned on and has not answered since |
| FaultBlock.RunMeans | src/hw/hdl/fault_block.vhd:248-254 | it is running if and only if it answered while starting and was told to be on at every tick since |
| FaultBlock.ConditionIs | src/hw/hdl/fault_block.vhd:260-470 | what each of bits 0 to 10 counts, in the inputs: thresholds reached either way, fault lines by polarity and main dipole, parking and a moving setpoint for the errors |
| FaultBlock.FaultMeans | src/hw/hdl/fault_block.vhd:260-470 | after a tick bit k is up if and only if that showed, uncleared, at each of the last limit + 1 ticks |
| FaultBlock.BetweenTicks | src/hw/hdl/fault_block.vhd:222-238 | between ticks fault and live bits are held; a reset clears them |
| FaultBlock.LiveMeans | src/hw/hdl/fault_block.vhd:260-470 | a live bit shows its condition at the tick; those of the errors are left alone while errors do not count |
| FaultBlock.LastBits | src/hw/hdl/fault_block.vhd:472-486 | bit 12 is the event receiver's fault a clock later, and bit 11 never comes up |
| FaultBlock.ErrorTrigger | src/hw/hdl/fault_block.vhd:104-119 | the error trigger is up if and only if bit 4, enabled, was a fault a clock ago |
| FaultBlock.LatchHistory | src/hw/hdl/fault_block.vhd:488-500 | a latch is set if and only if its fault bit was seen since the last clear pulse or reset |
| FaultBlock.ClearPulseLasts | src/hw/hdl/fault_block.vhd:163-167 | a clear pulse stays up until a tick takes it in |
| FaultBlock.LoweredLimit | src/hw/hdl/fault_block.vhd:260-273 | a count over its limit brings the fault up exactly after it has wrapped, at 16 bits or, for bit 10, at 32 |
| FaultBlock.NoEarlyRelatch | src/hw/hdl/fault_block.vhd:157-169 | after that tick no debounced bit comes up or latches before limit + 1 further ticks |
| FaultBlock.TripAndHold | src/hw/hdl/fault_block.vhd:101-120 | an enabled unmasked fault that has debounced trips within three clocks and holds until a clear or a reset |
| FaultBlock.FaultTrips | src/hw/hdl/fault_block.vhd:101-120 | from the inputs to the trip: a fault shown at limit + 1 ticks, enabled and not masked, trips until a clear or a reset |
| FaultBlock.TripHasCause | src/hw/hdl/fault_block.vhd:101-120 | the channel is tripped after an edge if and only if some enabled unmasked bit had its fault seen since the last clear pulse or reset |
| FaultBlock.ResetStartsAfresh | src/hw/hdl/fault_block.vhd:222-234 | after a reset none of bits 0 to 5 comes up or latches before limit + 1 ticks |
| FaultBlock.ResetKeepsCount | src/hw/hdl/fault_block.vhd:222-234 | none of bits 6 to 10 comes up while its count at the reset and the ticks since are together within the limit |
| FaultBlock.ResetIsNoFreshStart | src/hw/hdl/fault_block.vhd:222-234 | a run with limit 1 in which bit 6 comes up at the first tick after a reset |
| FaultBlock.OutputFollowsRequest | src/hw/hdl/digio_logic.vhd:57-124 | an output is on if and only if it is asked for and no trip interlocked with it is up |
| FaultBlock.TripOpensOutputs | src/hw/hdl/digio_logic.vhd:106-124 | from debounced fault to open output across four channels; in dual mode either trip opens outputs 3 and 4 |
| PscFraming.ParseEncoded | src/sw/src/pscmsg.c:126-180 | a whole message at the head of a stream is read back, and nothing after it touched |
| PscFraming.WholeIsEncoded | src/sw/src/pscmsg.c:126-180 | the converse: what is read is an encoded message, byte for byte |
| PscFraming.ParsePartial | src/sw/src/pscmsg.c:46-62 | part of a message is never taken for one, nor for a fault |
| PscFraming.FramingPrefix | src/sw/src/pscmsg.c:75-180 | however much of a list has arrived, exactly its complete messages are there to be read, in order and unchanged |
| PscFraming.FramingRoundTrip | src/sw/src/pscmsg.c:75-180 | any list within the receiver's limit parses back unchanged |
| PscFraming.EncodeAllLast | src/sw/src/pscmsg.c:89-102 | one more message sent extends the encoding by exactly itself |
| PscFraming.Socket.SendAll | src/sw/src/pscmsg.c:28-44 | everything is sent, or a failure was seen and a proper beginning was, under any short writes |
| PscFraming.Socket.RecvAll | src/sw/src/pscmsg.c:46-62 | as many bytes as asked for, in order, or a failure, under any short reads |
| PscFraming.Socket.SendMsg | src/sw/src/pscmsg.c:89-102 | success means the encoding went out whole |
| PscFraming.Socket.SendMsgSingle | src/sw/src/pscmsg.c:104-124 | the same with a register number before the data; the header's length wraps with both |
| PscFraming.SingleIsMessage | src/sw/src/pscmsg.c:104-124 | within the receiver's limit that is read back as one message |
| PscFraming.Socket.RecvHead | src/sw/src/pscmsg.c:126-144 | a header is taken whole and judged by its magic |
| PscFraming.Socket.RecvMsg | src/sw/src/pscmsg.c:146-180 | unless the stream fails, the outcome is what the bytes hold; a bad magic or an oversized length takes the header and not a byte more |
| PscFraming.Socket.SendMsgs | src/sw/src/pscmsg.c:89-102 | repeated sends put out the encoding of the list, and a beginning of it when one fails |
| PscFraming.Socket.RecvMsgs | src/sw/src/pscmsg.c:146-180 | repeated reads of a beginning of a list give its messages in order and unchanged, all of them unless the stream fails, and never a fault |
| PscFraming.Deliver | src/sw/src/pscmsg.c:28-180 | end to end over short writes and short reads: the receiver has a beginning of the list sent, and all of it when no call failed |
| PscServer.ClosedOnce | src/sw/src/listener.c:118-141 | no connection is closed twice |
| PscServer.NoUseAfterClose | src/sw/src/listener.c:118-141 | nothing is sent to or read from a closed connection, though its descriptor may be reused |
| PscServer.Accounted | src/sw/src/listener.c:143-172 | every accepted connection is open or was closed |
| PscServer.CallbacksAlternate | src/sw/src/listener.c:118-172 | the first callback is a connect; after it comes the disconnect of the same client, and then a connect |
| PscServer.ReadsWhatWasSelected | src/sw/src/listener.c:220-258 | a message is read only from the connection that the latest select reported |
| PscServer.FailureDrops | src/sw/src/listener.c:252-313 | a failed receive or send, or a heartbeat that timed out, drops the client it was for, at once, and the callback is told |
| PscServer.DroppedForCause | src/sw/src/listener.c:118-313 | a client is dropped for nothing else but a newer connection |
| PscServer.PendingAccepted | src/sw/src/listener.c:238-240 | a connection that waits is accepted, or accept fails |
| PscServer.AcceptedJoins | src/sw/src/listener.c:143-172 | an accepted connection becomes the client, its heartbeat starts, and it is announced; the one before it is dropped and told first |
| PscServer.ReceivedHanded | src/sw/src/listener.c:256-269 | a message received starts the heartbeat again and is handed to the callback |
| PscServer.ReadableIsRead | src/sw/src/listener.c:242-258 | a client that can be read is read in the same turn, unless it was dropped before |
| PscServer.LastHeard | src/sw/src/listener.c:164-166 | the client was last heard when its heartbeat last started |
| PscServer.HeartbeatEveryTurn | src/sw/src/listener.c:274-279 | in every turn that leaves a client its heartbeat was looked at, and was within the timeout |
| PscServer.WorkEveryTurn | src/sw/src/listener.c:280-285 | every turn does the periodic work |
| PscServer.Server.PscSend | src/sw/src/listener.c:288-313 | a send goes to the client, and drops it if and only if it fails, even inside a callback; with no client nothing happens |
| PscServer.Server.HangUp | src/sw/src/listener.c:133-140 | the client is marked gone, closed and announced gone |
| PscServer.Server.DisconnectClient | src/sw/src/listener.c:118-141 | at most the client is dropped, whatever the callback sends |
| PscServer.Server.AcceptClient | src/sw/src/listener.c:143-172 | a new connection supersedes the old one, and the client that was there is not there afterwards |
| PscServer.Server.ReceiveClient | src/sw/src/listener.c:242-270 | one message is read from the selected client; an error drops it, success restarts its heartbeat |
| PscServer.Server.CheckHeartbeat | src/sw/src/listener.c:274-279 | the client is dropped if and only if its silence, less whole turns of the counter, is the timeout or more |
| PscServer.Server.Turn | src/sw/src/listener.c:210-285 | one turn begins with a select, and leaves nothing due, no readable client unread, nothing open but the client, and no client that was silent for the timeout |
| PscServer.Server.PscRun | src/sw/src/listener.c:210-285 | every run of so many turns leaves a lawful trace of so many with nothing due, and every connection ever accepted the client or closed |
| SmoothRamp.RunRamp | testing/smoothing/smooth_linear_ramp_david_nodivide.py:47-72 | the loop fills the array with the setpoints of the ramp |
| SmoothRamp.ClosedForm | src/sw/src/control.c:331-353 | after n steps the setpoint is the start and so many times each constant |
| SmoothRamp.EndPoint | src/sw/src/control.c:331-353 | any pair of constants ends at M squared times the one and L times the other |
| SmoothRamp.LandsExactly | src/sw/src/control.c:262-266 | for every start, end and number of points the exact ramp lands exactly |
| SmoothRamp.RoundedPosition | src/sw/src/control.c:331-353 | what errors of the constants do to every setpoint, exactly |
| SmoothRamp.AbsoluteError | src/sw/src/control.c:283-308 | an absolute error e moves the end by at most e taken L + M*M times, and the bound is reached |
| SmoothRamp.RelativeError | src/sw/src/control.c:283-308 | a relative error e moves the end by at most e times the whole change |
| SmoothRamp.OutputLands | src/hw/hdl/smooth_linear_ramp.vhd:71-205 | with rounded fixed-point constants the output ends on the target or one code below; on the target if and only if the errors of the constants, each as often as its constant is taken, sum to zero or more |
| SmoothRamp.OneCodeLow | src/sw/src/control.c:286-308 | a planned ramp whose registers hold the nearest single-precision numbers ends a code low |
| SmoothRamp.GuardedLands | src/sw/src/control.c:283-305 | exactly when the guarded ramp still lands |
| SmoothRamp.GuardSpoils | src/sw/src/control.c:283-305 | a change of 2400 codes that the guard ends half way |
| SmoothRamp.StepShape | src/sw/src/control.c:331-350 | every step goes the ramp's way and is at most dy; consecutive steps differ by at most dy / M, across both joins |
| SmoothRamp.SetpointsBetween | src/sw/src/control.c:331-350 | the ramp is monotone and never leaves the interval between start and end |
| SmoothRamp.RunOldRamp | testing/smoothing/smooth_linear_ramp_david.py:46-70 | the older loop, with its three separate tests |
| SmoothRamp.OldFallsShort | testing/smoothing/smooth_linear_ramp_david.py:16-42 | the older form ends short by the cut-off part of one step, and on target if and only if nothing was cut off |
| FofbLink.SendFastUdpPacket | testing/fofb/caen_fast_genpacket.c:16-83 | the payload on the wire, big-endian throughout, or -1 for more than ten pairs |
| FofbLink.AppendPreface | testing/fofb/caen_fast_genpacket.c:28-39 | protocol number, command and nonce |
| FofbLink.AppendPair | testing/fofb/caen_fast_genpacket.c:43-58 | one pair, six bytes, after what is there |
| FofbLink.UdpRx.ClockHeader | src/hw/hdl/fofb_udp_rx.vhd:89-162 | a header byte falls into place; the last one decides |
| FofbLink.UdpRx.ClockSetpoint | src/hw/hdl/fofb_udp_rx.vhd:191-212 | each channel compares the pair's address with its own |
| FofbLink.UdpRx.Clock | src/hw/hdl/fofb_udp_rx.vhd:54-220 | one edge, reset included |
| FofbLink.HeaderFills | src/hw/hdl/fofb_udp_rx.vhd:89-148 | 54 bytes fall into place, one a clock |
| FofbLink.PairRead | src/hw/hdl/fofb_udp_rx.vhd:164-212 | a pair's bytes leave its setpoint with exactly the channels that have its address |
| FofbLink.LastForIs | src/hw/hdl/fofb_udp_rx.vhd:191-204 | the last pair with an address wins |
| FofbLink.PairsRead | src/hw/hdl/fofb_udp_rx.vhd:164-212 | after any list of pairs each channel holds its last one, or its old value |
| FofbLink.RestIgnored | src/hw/hdl/fofb_udp_rx.vhd:74-82 | a frame turned down is not looked at again while its line stays up |
| FofbLink.GeneratedBytes | testing/fofb/caen_fast_genpacket.c:28-60 | the generated frame carries exactly the generator's payload |
| FofbLink.FrameRead | src/hw/hdl/fofb_udp_rx.vhd:73-216 | a generated frame is decoded when address and number match; any other frame, with any 54 bytes of header and any bytes after them, changes nothing reported |
| FofbLink.LinkDelivers | src/hw/hdl/fofb_udp_rx.vhd:73-216 | over any sequence of generated and other frames each channel ends with the last setpoint sent to it, every frame for this controller is counted and no other, and the logic is ready again |
| FofbLink.FlagsNext | src/hw/hdl/fofb_udp_rx.vhd:73-216 | packet is up for the clock after a frame is counted, done for the one after the line went down behind a pair |
| FofbLink.FrameDone | src/hw/hdl/fofb_udp_rx.vhd:164-212 | a frame for this controller is reported done at the first clock after it, for one clock |
| FofbLink.ResetRestarts | src/hw/hdl/fofb_udp_rx.vhd:56-70 | after a reset at any moment nothing is reported, and the next frame is taken |
| FofbLink.ResetInFrame | src/hw/hdl/fofb_udp_rx.vhd:56-87 | after a reset in the middle of a frame too, if no later byte of it, nor of the gap, is the end of a preamble |
| FofbLink.ResetMisframes | src/hw/hdl/fofb_udp_rx.vhd:56-87 | if one is, a header is expected right behind it, line up or down |
| DacGainOffset.WideCorrect | src/hw/hdl/dac_gainoffset.vhd:77-102 | 20-bit mode gives the clamped product although only a wrapped slice is inspected |
| DacGainOffset.WideGains | src/hw/hdl/dac_gainoffset.vhd:94-102 | it does so for every setpoint if and only if the gain is over 0 and at most 2.0 |
| DacGainOffset.NarrowCorrect | src/hw/hdl/dac_gainoffset.vhd:103-111 | 18-bit mode gives the product clamped to 18 bits |
| DacGainOffset.NarrowGains | src/hw/hdl/dac_gainoffset.vhd:103-111 | it does so for every 18-bit setpoint if and only if the gain is over -4.0 and at most 4.0 |
| DacGainOffset.Pipeline | src/hw/hdl/dac_gainoffset.vhd:68-123 | twelve clocks after a trigger the corrected setpoint is there and done is up |
| DacGainOffset.DoneMeans | src/hw/hdl/dac_gainoffset.vhd:68-131 | over any run done is up exactly twelve edges after each trigger taken while idle, for that one clock and for no other reason; triggers in between are not taken |
| DacGainOffset.IdleHolds | src/hw/hdl/dac_gainoffset.vhd:70-76 | without a trigger an idle logic stays idle and holds its setpoint, with done and sat down |
| DacGainOffset.OutputHeld | src/hw/hdl/dac_gainoffset.vhd:87-114 | the output is written only at the third and fourth clock after a trigger |
| DacGainOffset.ResetsDelay | src/hw/hdl/dac_gainoffset.vhd:62-66 | edges in reset clear done and otherwise only delay the logic |
| DacGainOffset.CorrectionDelivers | src/hw/hdl/dac_gainoffset.vhd:68-123 | with no offset overflow and a gain in range, the output is the clamped ideal and sat tells whether it was clamped |
| DacGainOffset.GainOffset.CheckForSat | src/hw/hdl/dac_gainoffset.vhd:94-114 | the saturation stage |
| DacGainOffset.GainOffset.Clock | src/hw/hdl/dac_gainoffset.vhd:62-131 | one edge, reset included |
| QspiSettings.Flash.Transfer | src/sw/src/qspi_flash.c:92-167 | an enabled idle flash erases a sector to ones, and a program only clears bits, inside one page |
| QspiSettings.PageWritten | src/sw/src/qspi_flash.c:92-167 | erase then program leaves the page in its sector and every other sector alone |
| QspiSettings.Board.WaitUntilDone | src/sw/src/qspi_flash.c:117-127 | polling ends with the flash idle |
| QspiSettings.Board.FlashWrite | src/sw/src/qspi_flash.c:92-129 | the buffer but for its first four bytes is programmed |
| QspiSettings.Board.FlashRead | src/sw/src/qspi_flash.c:74-87 | the contents arrive after four bytes of no meaning |
| QspiSettings.Board.EraseSect | src/sw/src/qspi_flash.c:133-167 | one sector is erased |
| QspiSettings.Board.GatherData | src/sw/src/qspi_flash.c:170-237 | the 37 registers and 7 scale factors, laid out after a header of no meaning |
| QspiSettings.Board.DisperseData | src/sw/src/qspi_flash.c:296-356 | they are put back in force, and no other register or channel changes |
| QspiSettings.SectorLayout | src/sw/src/qspi_flash.c:170-237 | a saved sector word by word: each register by name, in the order of the structure, and then the scale factors |
| QspiSettings.Board.WriteQspi | src/sw/src/control.c:905-916 | the settings are saved, what is in force does not change, no other sector changes |
| QspiSettings.Board.ReadQspi | src/sw/src/control.c:918-925 | the saved settings are in force, and nothing else changes |
| QspiSettings.Board.InitSettings | src/sw/src/qspi_flash.c:26-43 | at startup the two event numbers are 10, every channel takes what its sector holds, and no other register changes |
| QspiSettings.SettingsPersist | src/sw/src/control.c:905-925 | over any run, what a channel had in force when written is back after a read, unless that channel was written again |
| QspiSettings.Board.Perform | src/sw/src/control.c:905-925 | any run of saves, reads and register changes on the board does what the run on the settings does |
| QspiSettings.Board.SaveAndRestore | src/sw/src/control.c:905-925 | on the board: what was in force when saved is in force after a read, whatever came between but another save of the channel |

## Left out

- Hardware and libraries: lwIP, FatFs, AXI handshakes, SPI pins, caches. Their results are parameters or nondeterministic choices; a ring burst of 40 words is one atomic record.
- TFTP file name and mode parsing is one flag of a request; block bytes are those handed to the file's write function in one transfer, since opening does not truncate the file. The `int` timer of the session is unbounded here.
- SnapshotRing.ReadDMABuf: reads a sequence that is the memory at that moment, so a writer that overtakes the copy is not modelled; floats are exact numbers.
- SnapshotRing.RingWriter.WriteRecord: a reset in mid-run is not modelled; it clears the count but not the address.
- SnapshotSend.LateEnough: the sample clock runs without a resync from the event receiver in the span, the processor's tick is a whole number of its clocks, and a record counts as written from its pulse on.
- TftpReopen.WritesSafe: other peers write other files, a failed write puts nothing on the disk, and the file is small (`TftpLimit.ReorderLimit` is about larger ones); the file that is read does not change.
- SnapshotTrigger.Snapshots.SnapshotProcess: the event-receiver triggers are polled but never sent by the source, so nothing is promised of them; statistics messages are not modelled.
- FaultBlock.FaultLogic.Clock: the absolute value of the most negative code is taken exactly; the test bit 13, the unused heartbeat detector and the per-channel wiring of the park input are not modelled.
- FaultBlock.TripOpensOutputs: the pulse trains that enter the output equations are inputs.
- PscServer.Server.Turn: what the environment answers is chosen freely, and message contents are not in the trace; socket options, `errno` and the callback being absent are not modelled.
- PscServer.Server.PscRun: runs any number of turns where the source loops forever.
- SmoothRamp.RunRamp: rounding while the sum accumulates is not modelled; only rounding of the two constants is. Reading ramp rates and durations, and the CORDIC ramp, are not modelled.
- SmoothRamp.OutputLands: the state machine around the accumulator is not modelled, only its sum and its output shift.
- FofbLink.LinkDelivers: frames that end inside a header or a pair, and bytes after the last pair of a frame for this controller, are not among the arrivals; the logic does not look at the valid line there.
- QspiSettings.Board.GatherData: registers are visited through a table of offsets where the source names them one by one.
- QspiSettings.Board.FlashRead: reads past the end of the flash do not occur and are not modelled.
- Console menus, SD card configuration, plots, data tables, the moving average, the ramp tables and the small counters.
