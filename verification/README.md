# Verified models of the PX4 tuner driver

A Dafny model of the parts of the driver that hold real algorithms or protocols,
with proofs of what they promise. Every result is a statement about all inputs,
all runs or all interleavings; register sequences, clocks and the bus appear as
tables and as nondeterministic success or failure.

`dafny verify dfyconfig.toml` checks the whole project.

- **TSMF stream selector** (`Tsmf*.dfy`, `Transducer.dfy`, `Byte*.dfy`). The
  online filter over 188-byte packets is a state machine (`TsmfSelector`) and a
  class with its fixed buffers (`TsmfFilter`). `TsmfOffline` reads a whole
  recording with hindsight: skip the stale packets, cut at the headers, keep the
  frames whose 53rd position closes them, take the slots of the pinned stream, join
  divided TLV from boundary to boundary. The main theorem is that the two agree for
  every sequence of packets and resynchronisations. The header's residue-zero test
  is proved to be the CRC comparison of Annex A of ISO/IEC 13818-1.
- **Ring buffer** (`RingBuffer*.dfy`). One reader, one writer and any number of
  purgers, interleaved at every access to a shared variable, with stale local
  copies.
- **Kernel ring buffer** (`KernelRing*.dfy`). The same copies, with a reset that
  waits for the users without keeping them out.
- **Chunk demultiplexer** (`Demux*.dfy`). Sync search, routing by tagged sync byte,
  and the carry across arbitrary chunk boundaries, with an exact account of what is
  taken and what is missed.
- **Demodulator** (`Demod*.dfy`). A paged register file, the driver's wake, sleep
  and reset sequences as tables, and its record of them; every access may fail,
  either before or after it reaches the chip. `DemodOutput` and `DemodReception` say
  what the sequences come to in the registers.
- **Shared power** (`Mldev*.dfy`, `BoardPower.dfy`). Two boards under one power
  policy, the device files on top of it, and one board shared by tuners and a card reader.
- **Synthesizers** (`Pll.dfy`, `PllTuners.dfy`). Divider search, sigma-delta
  expansion and the resulting error for RT710 and R850.
- **Device numbers** (`Minors.dfy`, `MinorTable.dfy`), **card readers**
  (`CardRegistry.dfy`, `CardLifecycle.dfy`), **card sharing** (`CardServer.dfy`)
  and the **USB bridge** (`Bridge.dfy`).

## Findings

- `cxd2856er_sleep` (driver/cxd2856er.c:669-707) keeps the record "active, woken
  completely" when a cable sleep fails half way. A later wakeup for the same system
  then takes the short path and reports success with some settings already taken
  back. `DemodDefect.RetunesUndoneReception` is a concrete history;
  `DemodSettings.ShortPathExactly` says exactly when the settings are in place.
- `px4_mldev_set_power` (driver/px4_mldev.c:236-311) reports an error after having
  recorded the tuner exactly when its own board has or gets power and the partner,
  attached, off and now needed, does not (`MldevTheorems.FailedButRecorded`). Asked
  again, it reports success without asking for initialisation (`RepeatedTuner`).
  `FailedTunerRun` is a run of two requests that ends so. As `px4_chrdev_open` does
  not undo the request, the board stays powered with no file open
  (`MldevFiles.LeftPowered`); `MldevFiles.RecordedExactly` says exactly when the
  recorded tuners are the open ones. The next open then succeeds on a board that was
  not initialised (`OpensUninitialised`); `InitialisedExactly` says when that is so.
- `ringbuffer_reset` (driver/ringbuffer.c:138-148) waits until no call is inside, but
  nothing keeps one out afterwards, and reading takes no lock
  (driver/ptx_chrdev.c:139-181). Its stores fall outside all calls exactly when no
  call is counted in between its check and its last store
  (`KernelRing.AloneExactly`). A late call is harmless unless the first store meets
  its transfer or it starts one between the stores (`KernelRing.CleanExactly`,
  `KernelRingSafe.SafeUnlessHarmful`); a read whose copy is met, no write being under
  way, can always end with a size below zero (`KernelRingDefect.HarmHurts`), and
  `LateReadCorrupts` is a run that does, for every size of the ring.
- `ptx_chrdev_context_search_minor` (driver/ptx_chrdev.c:987-1015) answers a request
  for no number at all like one for a single number, and reads one cell behind the
  table exactly when no cell has the wanted state (`MinorTable.Context.Search`,
  `Minors.AnswerFromBehind`). The repository's own requests are for at least one.
- `px4_device_stream_handler` (driver/px4_device.c:183-223) gives up all carried bytes
  when the first of them opens no run of four, and with them any packet that begins
  further back among them. `DemuxLosses.CutLosesPackets` is a stream that loses two
  packets by the way it is cut. By `TakenExactly` nothing else is ever missed, and by
  `OnceLocked` nothing any more once the carry begins with a packet of a stream that
  stays in sync.
- `RingBuffer::Purge` (winusb/src/DriverHost_PX4/ringbuffer.cpp:203-233) leaves `wait_`
  set if taking the lock throws; by `RingBufferWait.FlagExactly` that is the only way,
  and then it stays set.

## Model

| member | source | states |
|---|---|---|
| TsmfCrc.OnlyZeroShiftsToZero | driver/tsmf.c:24-44 | shifting the CRC register is injective: only zero is shifted to zero |
| TsmfCrc.PolyTaps | driver/tsmf.c:24-44 | the feedback polynomial has the fourteen exponents below 32 of Annex A, and the register starts with ones |
| TsmfCrc.FeedIsClocking | driver/tsmf.c:24-44 | xoring a byte in and shifting eight times equals clocking the shift register bit by bit |
| TsmfCrc.ResidueExact | driver/tsmf.c:24-44 | the register over data and four more bytes is zero if and only if those bytes are the CRC of the data |
| TsmfCrc.Residue | driver/tsmf.c:24-44 | the byte-wise CRC loop computes the bit-serial register of Annex A |
| TsmfPacket.CheckHeader | driver/tsmf.c:24-44 | accepts a packet if and only if its fixed fields hold and its last four bytes are the CRC of bytes 4 to 183 |
| TsmfPacket.ResolvesUnique | driver/tsmf.c:46-82 | at most one relative number has exactly the requested number of valid streams before it |
| TsmfPacket.FindStream | driver/tsmf.c:46-82 | the counting loop finds that number, or reports that there is none |
| TsmfFields.FixedBytes | driver/tsmf.c:24-34 | a packet has the header's fixed fields if and only if its bytes 1 to 6 are PID 0x002f, a payload without adaptation field, one of the two sync words, and type 1 or 2 |
| TsmfFields.ValidBytes | driver/tsmf.c:19-63 | bytes 7 and 8 are the validity bits of the fifteen streams, the first in the highest bit |
| TsmfFields.TlvBytes | driver/tsmf.c:19-67 | bytes 125 and 126 are their type bits, clear for divided TLV |
| TsmfFields.SlotNibbles | driver/tsmf.c:73-74 | byte 73 + j is the stream of slot 2j in its upper half and that of slot 2j + 1 in its lower |
| TsmfFields.Kinds | driver/tsmf.c:97-117 | which packets carry TLV and which end what is held, by flags, PID and pointer |
| TsmfTlv.Potential | driver/tsmf.c:84-129 | bytes out plus bytes held grow by at most 185 per packet, and never more than 65536 are held |
| TsmfTlv.ExtractStep | driver/tsmf.c:97-129 | one step of the extractor is one step of the reading with hindsight |
| TsmfTlv.ExtractIsHindsight | driver/tsmf.c:97-129 | the running extractor emits exactly the payload from one pointer boundary to the next, never across an errored packet |
| TsmfTlv.ExtractFrame | driver/tsmf.c:131-162 | the same for a frame that continues a chain of frames |
| TsmfTheorems.StepTracks | driver/tsmf.c:205-284 | every event, header, slot, stray packet or resynchronisation, moves filter and reading in step |
| TsmfTheorems.StaleRun | driver/tsmf.c:205-276 | stale packets only count down; afterwards the filter is as new |
| TsmfTheorems.SelectorIsOffline | driver/tsmf.c:131-284 | for every sequence of events the total output is the offline reading of what follows the stale packets |
| TsmfTheorems.SearchingExactly | driver/tsmf.c:205-293 | the filter is searching if and only if no header and fewer than 424 packets have come since the stale ones |
| TsmfTheorems.SearchingEnds | driver/tsmf.c:205-293 | a filter that has left that state never returns to it |
| TsmfTheorems.StatusExactly | driver/tsmf.c:205-293 | after every run the reported state is the recording's own answer: found or not by the last header and the pinned stream, or, without a header, by the packets counted and the stream asked for |
| TsmfTheorems.PinnedForGood | driver/tsmf.c:46-82 | the first header that answers the requested index pins its number, and nothing changes it |
| TsmfTheorems.RelativeIsPinned | driver/tsmf.c:46-82 | the filter's field holds that number after every run |
| TsmfTheorems.RejectedExactly | driver/tsmf.c:131-162 | the filter's verdict is set after a run if and only if a complete frame typed as TLV carried MPEG-2 packets |
| TsmfTheorems.OnceMpegAlwaysMpeg | driver/tsmf.c:131-276 | from then on, whatever arrives, all that the filter hands on is packets as they arrived, each at most once and in their order, and the verdict stands |
| TsmfFilter.Filter.Init | driver/tsmf.c:164-181 | a new tuning resets everything but the slot table |
| TsmfFilter.Filter.Resync | driver/tsmf.c:278-284 | drops the frame and the held TLV and nothing else |
| TsmfFilter.Filter.GetState | driver/tsmf.c:286-293 | reports the state machine's status |
| TsmfFilter.Filter.AppendTlv | driver/tsmf.c:84-95 | appends in place, or empties the buffer when it would overflow |
| TsmfFilter.Filter.ExtractTlv | driver/tsmf.c:97-129 | the in-place extractor is the extraction function and stays within its buffers |
| TsmfFilter.Filter.FlushFrame | driver/tsmf.c:131-162 | emits the frame as packets or as TLV blocks, as the state machine does |
| TsmfFilter.Filter.ParseHeader | driver/tsmf.c:46-82 | takes stream, type and slots from the header, as the state machine does |
| TsmfFilter.Filter.PassthroughPacket | driver/tsmf.c:188-203 | collects 52 packets and hands them on |
| TsmfFilter.Filter.FilterPacket | driver/tsmf.c:205-276 | one call is one step of the state machine, and every buffer access is in bounds |
| TsmfSelect.Select | driver/tsmf.c:164-276 | feeding a recording to the filter object yields the offline reading |
| RingBufferProof.AddressIsMod | winusb/src/DriverHost_PX4/ringbuffer.cpp:104-201 | the two-part copy addresses byte k of the ring |
| RingBufferProof.ControlStep | winusb/src/DriverHost_PX4/ringbuffer.cpp:88-233 | every step keeps the handshake of `wait_`, `rw_count_` and the lock |
| RingBufferData.InvStep | winusb/src/DriverHost_PX4/ringbuffer.cpp:69-233 | every step of every thread keeps handshake, positions and contents |
| RingBufferData.AlwaysSafe | winusb/src/DriverHost_PX4/ringbuffer.cpp:69-233 | in every interleaving: a reset runs alone, copies stay in the buffer and never touch each other, bytes read since the last purge are a prefix of the bytes accepted since then, and no purger sleeps through the departure of the last user |
| RingBufferSolo.ReadAlone | winusb/src/DriverHost_PX4/ringbuffer.cpp:104-151 | an undisturbed read takes the oldest bytes, as many as are wanted and there |
| RingBufferSolo.WriteAlone | winusb/src/DriverHost_PX4/ringbuffer.cpp:153-201 | an undisturbed write appends as many bytes as there is room for |
| RingBufferSolo.PurgeAlone | winusb/src/DriverHost_PX4/ringbuffer.cpp:203-233 | a purge that finds no users empties the ring and lets users in again |
| RingBufferWait.FlagExactly | winusb/src/DriverHost_PX4/ringbuffer.cpp:203-233 | in every run, unless a purge has left by an exception, `wait_` is set if and only if somebody purges; once one has, it stays set and nobody purges again |
| RingBufferWait.PurgeGivesUp | winusb/src/DriverHost_PX4/ringbuffer.cpp:203-233 | a purge that sees users and runs out of time leaves everything as it was, and `wait_` clear |
| RingBufferWait.StoppedAccepts | winusb/src/DriverHost_PX4/ringbuffer.cpp:83-201 | from a stop with no write under way, nothing is accepted until the ring is started |
| KernelRing.AloneExactly | driver/ringbuffer.c:63-148 | over every run, no store of a reset falls into a call if and only if no call is counted in between the reset's check and its last store |
| KernelRing.CleanExactly | driver/ringbuffer.c:63-278 | over every run, no transfer crosses the stores of a reset if and only if its first store meets no transfer and none starts between its stores |
| KernelRingSolo.KernelReadAlone | driver/ringbuffer.c:174-229 | an undisturbed read takes the oldest bytes, as many as are wanted and there |
| KernelRingSolo.KernelWriteAlone | driver/ringbuffer.c:231-278 | an undisturbed write appends as many bytes as there is room for, if and only if a reader has announced itself |
| KernelRingSolo.KernelResetAlone | driver/ringbuffer.c:138-148 | a reset without users empties a ring that is stopped, and is refused otherwise |
| KernelRingSafe.NextGood | driver/ringbuffer.c:174-278 | every step that is not harmful, late or not, keeps positions and contents |
| KernelRingSafe.SafeUnlessHarmful | driver/ringbuffer.c:63-278 | in every run without harmful moves, late calls included, copies stay in the buffer and apart, bytes read are a prefix of the bytes accepted, and the size is their difference |
| KernelRingSafe.SafeUnlessLate | driver/ringbuffer.c:63-278 | in every run without late calls, a reset also runs alone |
| KernelRingDefect.HarmHurts | driver/ringbuffer.c:138-229 | every run without harm so far in which a reset is past its check while a read copies and no write is under way can go on so that everybody is at rest and the size is below zero |
| KernelRingDefect.LateReadCorrupts | driver/ringbuffer.c:138-229 | for every size of the ring, a run with a late read after which everybody is at rest and the size is -1 |
| KernelRingDefect.ThenReadsOutside | driver/ringbuffer.c:174-229 | a read of more than twice the ring's size then copies from behind the buffer |
| DemuxTheorems.ScanApart | driver/px4_device.c:135-181 | a scan takes tagged packets at rising positions and leaves fewer than 752 bytes |
| DemuxTheorems.CarryAllOrNone | driver/px4_device.c:183-223 | the filled carry buffer yields exactly four packets or none |
| DemuxTheorems.HandleApart | driver/px4_device.c:183-223 | the same for one call with carried bytes |
| DemuxTheorems.FeedApart | driver/px4_device.c:135-223 | for arbitrary bytes and chunks, packets lie at rising, non-overlapping positions in front of the carried tail |
| DemuxTheorems.FeedInSync | driver/px4_device.c:135-223 | for a stream in sync, the packets taken and the carried bytes together are the input, however it is cut |
| DemuxTheorems.ChunkingDoesNotMatter | driver/px4_device.c:135-223 | two cuts of the same stream deliver the same packets, up to those still carried |
| DemuxLosses.ScanMissesNothing | driver/px4_device.c:135-181 | every place that a scan leaves out opens no run of four, every packet it takes follows another one or opens such a run, and it stops only where the bytes at hand leave that open |
| DemuxLosses.JunkThenSync | driver/px4_device.c:135-181 | junk without a run of four is passed over byte by byte, and from the first run of four on nothing of a stream in sync is lost |
| DemuxLosses.HandleMisses | driver/px4_device.c:183-223 | the same for one call, but for the carried bytes of a call that cannot lock on the first of them and drops them all |
| DemuxLosses.TakenExactly | driver/px4_device.c:135-223 | over any chunks, a place that opens a run of four and is not carried any more is covered by a packet if and only if its bytes were not dropped in a carry |
| DemuxLosses.OnceLocked | driver/px4_device.c:135-223 | once the carried bytes begin with a packet of a stream in sync, nothing is lost, however the rest is cut |
| DemuxLosses.JoinsInSync | driver/px4_device.c:135-223 | a first chunk of junk and four packets in sync: every packet behind the junk is taken or carried, however the rest is cut |
| DemuxLosses.CutLosesPackets | driver/px4_device.c:183-223 | a stream whose first byte only looks like a sync byte, in one chunk and in two: the second cut loses its first two packets |
| DemuxLosses.DeliveredExactly | driver/px4_device.c:166-176 | a packet tagged 0x17 to 16 n + 7 is handed to the receiver its tag names, as 0x47 and its other 187 bytes, in order; others are left out |
| DemuxDevice.StreamContext.Process | driver/px4_device.c:135-181 | the loop over a buffer hands on the packets of the scan, sync byte replaced, and stops where it stops |
| DemuxDevice.StreamContext.HandleChunk | driver/px4_device.c:183-223 | one call hands on and carries what the specification says |
| DemuxDevice.FeedStream | driver/px4_device.c:135-223 | a stream fed chunk by chunk yields those deliveries and that tail |
| DemodEffects.PlaySpares | driver/cxd2856er.c:329-533 | whatever access fails, a sequence that does not address a register leaves it as it was |
| DemodPlay.MergeBits | driver/cxd2856er.c:76-98 | a masked write gives each masked bit its new value and keeps the others |
| DemodEffects.RestoresC | driver/cxd2856er.c:568-606 | a completed ISDB-C restoration leaves the defaults |
| DemodEffects.RestoresJ | driver/cxd2856er.c:609-667 | a completed J.83B restoration leaves the defaults |
| DemodEffects.ConfiguresC | driver/cxd2856er.c:1249-1385 | a completed ISDB-C configuration leaves its settings |
| DemodEffects.ConfiguresJ | driver/cxd2856er.c:1139-1244 | a completed J.83B configuration leaves its settings |
| DemodTheorems.CableSleep | driver/cxd2856er.c:536-667 | a cable sleep restores all its registers if it succeeds and never touches the other cable system's |
| DemodTheorems.CableWake | driver/cxd2856er.c:1139-1385 | a cable wakeup sets all its registers if it succeeds and never touches the other cable system's |
| DemodTheorems.FailedSleep | driver/cxd2856er.c:568-667 | a failed cable sleep has taken back 0x11:a3 if it came that far, and changed no cable register otherwise |
| DemodOutput.Starts | driver/cxd2856er.c:795-1385 | a completed start leaves 0x10 in the low five bits of 0x00:80 for ISDB-S and 0x08 for the others, the pins that 0xc4 names driven, and the clock, power, source and tuning registers of its system |
| DemodOutput.SleepStops | driver/cxd2856er.c:296-707 | a sleep that came past its first part has 0xc3 set, 0x1f in those bits and the pins floating, whatever failed then; one that came to its end has also powered the demodulator down |
| DemodRuns.SleepKeeps | driver/cxd2856er.c:669-707 | sleeping keeps the invariant whatever fails |
| DemodRuns.WakeKeeps | driver/cxd2856er.c:1415-1491 | waking keeps the invariant whatever fails |
| DemodRuns.RetuneKeeps | driver/cxd2856er.c:1388-1413 | the short path, cut off anywhere, keeps what was in place |
| DemodRuns.NoLeak | driver/cxd2856er.c:669-1690 | after any history and failures, outside recorded cable reception every cable register holds its default, and within it those of the other cable system do |
| DemodSettings.ShortPathExactly | driver/cxd2856er.c:1415-1491 | the short path is open for a cable system only after a completed wakeup, and the settings are in place if and only if no failed sleep took back the first one since |
| DemodSettings.SettingsKept | driver/cxd2856er.c:669-1491 | as long as no command has reported that it could not leave cable reception since the last wakeup by the long path, all settings are in place |
| DemodSettings.WakeDelivers | driver/cxd2856er.c:1415-1491 | a wakeup that reports success leaves the defaults off the cable, all settings on the long path, and what was there on the short one |
| DemodSettings.WakeSucceeds | driver/cxd2856er.c:1415-1491 | without failures every system can be woken from every reachable state |
| DemodReception.WakeStarts | driver/cxd2856er.c:1415-1491 | a wakeup that reports success has started its system in the chip, or, on the short path, holds the stream back with the output as it was |
| DemodReception.Watches | driver/cxd2856er.c:1493-1690 | after a completed tuning the stream flows again; tuning and monitoring never touch the output, whatever fails |
| DemodReception.OutputFollows | driver/cxd2856er.c:669-1690 | after every history, unless an attempt to leave cable reception failed since the last long wakeup, a demodulator recorded as active and completely woken puts out its stream in the way of the recorded system |
| DemodDefect.RetunesUndoneReception | driver/cxd2856er.c:669-707 | a history in which the short path reports success without the setting of 0x11:a3 |
| DemodDevice.Demodulator.PlayTable | driver/cxd2856er.c:329-667 | accesses in order with early return are the table played until its first failure |
| DemodDevice.Demodulator.Sleep | driver/cxd2856er.c:669-707 | the object's sleep is the function's for every pattern of failures; it keeps the invariant, leaves the defaults on success, and stops output and power as far as its accesses succeed |
| DemodDevice.Demodulator.Wakeup | driver/cxd2856er.c:1415-1491 | the object's wakeup is the function's for every pattern of failures; it keeps the invariant, and success leaves the defaults or, on the long path, all settings, and the output on |
| MldevTheorems.DoKeeps | driver/px4_mldev.c:104-359 | every request keeps the policy on both boards |
| MldevTheorems.PowerHasReason | driver/px4_mldev.c:104-359 | after any requests and failures, users have power, power has a user or an interlocking partner, and a needed board without power could not be switched on |
| MldevTheorems.PowerIsNeed | driver/px4_mldev.c:104-359 | without failures a board is recorded powered if and only if it is needed, and the last command agrees |
| MldevTheorems.PartnerPowered | driver/px4_mldev.c:195-234 | without failures a board that nobody uses is powered if and only if its partner has a tuner in use that the mode lets wake it |
| MldevTheorems.AddAttaches | driver/px4_mldev.c:104-148 | attaching succeeds if and only if the place is free and the power its partner asks for comes on, and changes nothing otherwise |
| MldevTheorems.RemoveDetaches | driver/px4_mldev.c:150-193 | detaching succeeds if and only if the board is in its place, and keeps the partner's users |
| MldevTheorems.CardRecorded | driver/px4_mldev.c:313-359 | when the card's request succeeds and when it is recorded, and that it touches nothing else |
| MldevTheorems.TunerFirst | driver/px4_mldev.c:266-289 | a request that succeeds asks for initialisation if and only if it switches on a tuner and none of the board was recorded |
| MldevTheorems.FailedButRecorded | driver/px4_mldev.c:236-311 | a request that switches on fails and is recorded if and only if, before it, the own board had or got power and the attached, unpowered, now needed partner was refused it |
| MldevTheorems.RepeatedTuner | driver/px4_mldev.c:266-267 | repeated, a recorded request succeeds without asking for initialisation |
| MldevTheorems.FailedTunerRun | driver/px4_mldev.c:236-311 | a run in which the first tuner ever opened fails and is recorded |
| MldevTheorems.TunerRecorded | driver/px4_mldev.c:236-311 | a request is recorded unless its own board refuses power, and touches no other user |
| MldevFiles.RecordedExactly | driver/px4_device.c:274-583 | over every run of opens, releases and other requests, the recorded tuners are the open ones and those whose last open failed on the partner's power, so they are the open ones if and only if there are none such |
| MldevFiles.PoweredForNothing | driver/px4_device.c:274-583 | a board powered with no file open and no card in use is powered for an open that failed so |
| MldevFiles.LeftPowered | driver/px4_device.c:274-583 | a run of one open that fails and leaves its board powered with no file open |
| MldevFiles.InitialisedExactly | driver/px4_device.c:274-583 | over every run, the board of an open file is powered, and initialised since its power came on if and only if the first of its files now open met no tuner left behind there |
| MldevFiles.OpenIsInitialised | driver/px4_device.c:274-583 | as long as no tuner is ever left behind, no file is open on a board that was not initialised |
| MldevFiles.OpensUninitialised | driver/px4_device.c:274-583 | a run in which the open after a failed one succeeds on a board that nothing initialised |
| MldevDevice.MultiDevice.Add | driver/px4_mldev.c:104-148 | the branches of the code follow the policy |
| MldevDevice.MultiDevice.Remove | driver/px4_mldev.c:150-193 | removing frees the board and switches an idle partner off |
| MldevDevice.MultiDevice.SetPower | driver/px4_mldev.c:236-311 | the branches of the code follow the policy, own board first, then the partner; success asks for initialisation exactly for the first tuner |
| MldevDevice.MultiDevice.SetCardPower | driver/px4_mldev.c:313-359 | the card's request follows the policy and is undone if refused |
| Pll.Expand | driver/rt710.c:269-282 | for any fraction the sigma-delta loop ends without its step leaving 16 bits, and misses a fraction of the crystal by at most the rounding loss below and 2 kHz above |
| Pll.LossBound | driver/rt710.c:269-282 | for any crystal the rounding loses at most one kHz per step |
| Pll.Divide | driver/r850.c:789-823 | integer part and modulator value are within a 64th of the crystal, and within 7 kHz where the fraction is not snapped |
| PllTuners.RtDivider | driver/rt710.c:173-203 | for 146875 to 2350000 kHz the search ends with the smallest divider that puts the VCO into its band |
| PllTuners.RtDivide | driver/rt710.c:239-282 | with 8 bits for the integer part and 16 for the fraction, the division meets its bounds below 12 GHz |
| PllTuners.RtSetPll | driver/rt710.c:164-298 | for 146875 to 2350000 kHz the register values decode to dividers with that error |
| PllTuners.Divider | driver/r850.c:671-741 | the R850 search ends with the VCO in its band |
| PllTuners.ClockExactly | driver/r850.c:743-761 | the crystal is divided by 4 if and only if ISDB-T is received from 478 to below 482 MHz with the oscillator from 380.5 MHz on below the frequency, and by 2 for even twelfths below 380.5 MHz |
| PllTuners.SetPll | driver/r850.c:655-851 | the register fields decode to dividers with that error, for each crystal division |
| PllTuners.SetFrequency | driver/r850.c:2291-2313 | answers invalid exactly for a tuner that is not ready, frequencies outside 40000 to 1002000 kHz and missing table rows, fails exactly with the bus, and otherwise tunes the oscillator one intermediate frequency below or above |
| Minors.SkipAhead | driver/ptx_chrdev.c:987-1015 | skipping behind a cell that does not match skips no fit |
| Minors.AnswerFromBehind | driver/ptx_chrdev.c:987-1015 | the answer depends on what lies behind the table if and only if no number is asked for and no cell has the wanted state |
| Minors.FullTableAnswersFromBehind | driver/ptx_chrdev.c:987-1015 | a full table asked for no number answers from behind it |
| Minors.LiveGroups | driver/ptx_chrdev.c:1055-1338 | after any requests, live groups own disjoint ranges whose union is exactly the cells in use |
| Minors.AddTakes | driver/ptx_chrdev.c:1077-1281 | a failed add changes nothing; a successful one takes cells that were free or reserved |
| Minors.ReserveTakes | driver/ptx_chrdev.c:1055-1075 | a reservation fails if and only if no run of free cells is long enough, takes the lowest, and changes no other cell |
| Minors.AddExactly | driver/ptx_chrdev.c:1077-1281 | a group is added if and only if it has a place, its reserved one if it has one, and everything else works; it changes its own cells only |
| Minors.ReserveThenAdd | driver/ptx_chrdev.c:1055-1281 | what was reserved can be used |
| Minors.ReleaseFrees | driver/ptx_chrdev.c:1301-1338 | a release frees the cells of its group and no others |
| Minors.AddThenRelease | driver/ptx_chrdev.c:1077-1338 | releasing the group just added restores table and groups, but for its reservation |
| MinorTable.Context.Search | driver/ptx_chrdev.c:987-1015 | the skip-ahead search is exact first fit, for no number that for one, and says exactly when it reads behind the table |
| MinorTable.Context.CheckStatus | driver/ptx_chrdev.c:1017-1037 | says whether the whole range has the status, or that it leaves the table |
| MinorTable.Context.SetStatus | driver/ptx_chrdev.c:1039-1053 | fills the range in place and nothing else |
| MinorTable.Context.Reserve | driver/ptx_chrdev.c:1055-1075 | reserves what the search answers |
| MinorTable.Context.Add | driver/ptx_chrdev.c:1077-1281 | takes the numbers, and gives them back to what they were on failure |
| MinorTable.Context.Release | driver/ptx_chrdev.c:1301-1338 | frees exactly the range of the released group |
| CardRegistry.DecimalInjective | driver/px4_card.c:371-415 | different suffixes make different names |
| CardRegistry.DecimalValue | driver/px4_card.c:371-415 | a suffix is printed as the decimal digits of its value, without a leading zero |
| CardRegistry.FreeSuffixSmallest | driver/px4_card.c:371-415 | the chosen suffix is free, the smallest, and at most the number of readers |
| CardRegistry.ReadersApart | driver/px4_card.c:371-509 | after any registrations and removals, failed ones included, names and minors are distinct and the bitmap is exactly the registered minors |
| CardRegistry.RegistersExactly | driver/px4_card.c:371-457 | a reader is registered if and only if the kernel's calls work and a number is left; it takes the smallest one and a name that no reader has, its identifier if possible |
| CardRegistry.UnregisterFrees | driver/px4_card.c:498-509 | removing a reader frees its number and no other |
| CardRegistry.Registry.SetName | driver/px4_card.c:371-415 | the search loop ends, with that name |
| CardRegistry.Registry.Add | driver/px4_card.c:418-457 | registers with the first free minor, or leaves everything as it was |
| CardRegistry.Registry.Remove | driver/px4_card.c:498-509 | takes the reader off the list and frees its minor |
| CardLifecycle.NextKeeps | driver/px4_card.c:171-302 | every step is safe and keeps reference counts, the open file and the phases consistent |
| CardLifecycle.AlwaysSafe | driver/px4_card.c:171-517 | in every interleaving no freed reader is touched, no device is operated after its removal, an open never ends at a later reader, at most one file holds a reader, and a reader is freed exactly when registration and references are gone |
| CardLifecycle.OpensExactly | driver/px4_card.c:182-222 | an open gets the reader if and only if it is not disconnected and nobody has it open |
| CardLifecycle.LookUpFinds | driver/px4_card.c:182-201 | a lookup finds the reader its open was begun for, and takes a reference, if and only if that reader is still listed |
| CardLifecycle.OpenAfterRegister | driver/px4_card.c:182-492 | a reader just registered can be opened, whoever else is at work |
| CardLifecycle.CloseLetsIn | driver/px4_card.c:182-236 | once a file is closed, a process that waits for the reader gets it |
| CardLifecycle.RemovalEnds | driver/px4_card.c:498-517 | a listed reader can be removed to the end, whatever processes are at work |
| BoardPower.Board.OpenTuner | driver/pxmlt_device.c:219-335 | a failing open leaves the board powered only for other users |
| BoardPower.Board.ReleaseTuner | driver/pxmlt_device.c:337-370 | the last user switches the board off; it stays powered only if that failed |
| BoardPower.Board.Reference | driver/pxmlt_device.c:1230-1244 | the card's reference is recorded on success only, and dropped always, whether or not switching off works |
| BoardPower.Board.SetCardPower | driver/px4_card.c:84-113 | both layers agree about the card through every failure |
| CardServer.NextKeeps | winusb/src/DriverHost_PX4/card_server.cpp:59-145 | every step keeps counters, modes and mutex consistent |
| CardServer.SharingIsExact | winusb/src/DriverHost_PX4/card_server.cpp:59-407 | in every interleaving the counters are the numbers of holders, shared and exclusive exclude each other, and the mutex belongs exactly to the connection in a transaction or command |
| CardServer.AdmitsExactly | winusb/src/DriverHost_PX4/card_server.cpp:59-123 | a reader is granted, and a mode changed, if and only if no other holder stands in the way |
| CardServer.WaitsExactly | winusb/src/DriverHost_PX4/card_server.cpp:313-407 | a command or transaction waits if and only if another connection is in one on the same reader |
| CardServer.TransactionLocks | winusb/src/DriverHost_PX4/card_server.cpp:367-407 | a transaction locks its reader once more, and its end undoes exactly that |
| CardServer.CommandLocks | winusb/src/DriverHost_PX4/card_server.cpp:313-365 | so does a command, inside a transaction or not |
| CardServer.ReleaseGivesUp | winusb/src/DriverHost_PX4/card_server.cpp:89-145 | a release gives up what its connection held and nothing else |
| Bridge.Gpio.SetMode | driver/it930x.c:845-917 | succeeds if and only if the arguments are valid and the writes that the cache does not save succeed; the cache never claims what the chip lacks, so success implies the chip's setting |
| Bridge.Gpio.Enable | driver/it930x.c:919-962 | the same for enabling; a failure changes nothing |
| Bridge.PlanSends | driver/it930x.c:1303-1336 | chunks of 48 bytes and a last one of 1 to 48 make up the frame, with one commit just before the last |
| Bridge.Send | driver/it930x.c:1303-1336 | the loop sends exactly that, or a prefix of it up to the first failure |

## Left out

- Integer widths: sizes and counters are unbounded; a `size_t` overflow of `actual_size_ + size`, a 32-bit overflow of `base + num` and a wrapped minor base are not modelled. The CRC register is 32 booleans.
- PllTuners.RtSetPll: outside 146875 to 2350000 kHz the driver programs a VCO out of its band, and only the widths of the registers are stated.
- PllTuners.SetFrequency: intermediate frequencies from 1900 to 5070 kHz, the range of the driver's tables; the calibration runs of the synthesizer with other frequencies are not part of this model.
- Ring buffer: allocation and reallocation; memory ordering is sequentially consistent, and copies proceed byte by byte.
- KernelRing: one reset at a time, as the caller's lock guarantees; a copy to the user is complete; a writer that meets a negative size is not followed further; allocation, freeing and the waking of sleepers.
- Demodulator: reading C/N and lock values returns no data in the model; 0x40:26 to 29, which an ISDB-C sleep does not restore, are not among the cable registers considered. A masked write is one access. Histories begin at defaults after an initialisation.
- Mldev: the object's own reference count and list.
- MldevFiles: everything an open does after the power request is one outcome; what was open on a board that is removed is no longer counted.
- Minors: reserved cells have no recorded owner, as in the source; the window between taking a group off the list and its release is part of being live.
- CardLifecycle: the commands themselves; each one is a use of the device. Power is in BoardPower.
- BoardPower: a power-on that fails half way counts as not powered; a power-off, whose writes may fail unnoticed, either works or leaves the board powered; the receivers' initialisation is one outcome.
- Bridge.Gpio.SetMode: a failed write is taken to leave its register as it was.
- CardServer: finding and opening readers by name, and the smart card protocol.
- USB transfers, firmware download, named pipes, sysfs, user interface and configuration files; the plain-sync demultiplexers of ISDB2056 and ISDBT2071; register tables of the R850, TC90522 and CXD2858ER; C/N tables; receiving UART data. These are plumbing or data.
