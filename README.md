# LimeSuite FPGA control and Xillybus streaming bookkeeping, in Dafny

This project models the integer logic of LimeSuite's FPGA helpers and proves properties of the model. The helpers drive the FPGA of LimeSDR boards.

1. **Packet payload codec.** `FPGAPacketPayload2Samples` and `Samples2FPGAPacketPayload` convert between the bytes of a 4096-byte FPGA data packet and per-channel I/Q pairs of `int16`. There are two wire formats:
   - 12-bit packed: 3 bytes per channel slot.
   - 12 bits in 16: 4 bytes per channel slot, little-endian.

   Channels are interleaved with a stride of `frameSize*chCount` bytes.
2. **Register-level routines** of `FPGA_common.cpp`:
   - the stream enable, stream disable and timestamp reset words;
   - `SetPllClock`, the phase-step command;
   - `SetPllFrequency`, which covers the range checks, PLL selection and reset, VCO candidate enumeration and scoring, divider and flag words, the configuration batch, its busy wait, and the phase stage with its calibration scan;
   - `SetDirectClocking`.
3. **The `FPGA_PLL_clock` record** of `FPGA_common.h` and its default constructor.
4. **Per-batch bookkeeping** of the Xillybus streaming loops:
   - receive side: the packet-header scan, the packet-loss and overrun counters, and the once-per-batch late-transmit cool-down;
   - transmit side: packet stamping and the batch fill that stops early on the stop flag;
   - the phase-search eligibility test.

## How the model is organised

- **The connection (`RegisterPort.Port`).**
  - It is a class whose register file is a `map<nat, bv32>`.
  - It keeps the ordered log of every write that reached the board.
  - It has two sets of failing addresses: one for reads and one for writes. A failed read returns zero, and a failed write leaves no trace.
  - It records whether the port is open and whether the board is a LimeSDR-QPCIe.
  - It is given up front the busy-register readings that a wait will see, and the byte blocks that raw captures receive.
  - A batch write (`WriteRegisters`) is applied in order, or refused as a whole.
  - The contracts of the streaming routines, `SetPllClock`, `SetDirectClocking`, the raw capture and each stage of `SetPllFrequency` up to and including its configuration batch state the exact writes appended to the log and the register file that results. This says precisely which writes happen, and that nothing else changes.
  - The phase search and the phase stage are stated more weakly: each new write goes to a phase register (0x0023, 0x0024) or a capture register (0x000A, 0x0008, 0x0007), and the register file is those writes applied in order (`CalibrationWritesSince`). The exact sequence of step and capture writes is not stated; see "## Left out".
- **The codec (`SampleCodec`).** It works in place, as the source does: it decodes into an `array2` of samples and encodes into an `array` of bytes. Both are specified by positional functions:
  - `DecodedSample`, the sample a given slot decodes to;
  - `EncodedImage`, the byte every position of the buffer holds after encoding.

  The round trips are proved about those functions.
- **The PLL routine** is split by stage across several modules:
  - `FpgaPll`: the busy wait, `SetPllClock` and the register words;
  - `PllStages`: the range check, PLL selection and reset, and the output loop;
  - `VcoSearch`: VCO candidates and their scores;
  - `RawCapture`: the Xillybus `ReadRawStreamData`, with its stream-control and set-up writes;
  - `PhaseCalibration`: the capture scan and the phase search;
  - `PllConfiguration`: the whole routine and `SetDirectClocking`.
- **The streaming loops (`Xillybus`).** Each loop is a state machine over the packets of one batch:
  - The receive side is specified by `Scan` and `BatchOutcome`. The methods `ReceivePacket`, `ScanPackets` and `ReceiveBatch` are proved equal to them.
  - The transmit side fills an `array` of packet slots in place (`FillBatch`, `TransmitBatch`). It carries the persistent per-channel `samples` vectors from pop to pop, so a short queue read re-sends what the earlier reads left in the vector.

## How fixed-width and floating-point values are represented

- **Integers:**
  - Frequencies are whole hertz (`nat`).
  - Register words are `bv32`, and 16-bit reads are `bv16`.
  - The uint64 timestamp difference is written out modulo 2^64 (`Sub64`).
  - The int32 loss and overrun totals are written out modulo 2^32 (`Wrap32`).
  - The uint32 `samplesSent` wraps modulo 2^32.
  - `packetsToBatch` is a `uint8_t`, so `1 << tmp_cnt` is taken modulo 256.
- **Floating-point quantities:**
  - `Fvco = inputFreq*M/N` and `C = int(Fvco/fout + 0.5)` become exact rational arithmetic: C is the nearest integer, with ties rounding up.
  - The phase step `Fstep_deg` becomes exactly `45/C` degrees.

## Where the model follows the code rather than the written description

- **Packet loss on 0, S, 3S.** `S` is `samplesInPacket`. When the counters 0, S, 3S arrive in one batch, the code adds 2 to `packetLoss`, because the jump is 2S and the increment is `(counter - prevTs)/samplesInPacket`. It does not add 1 (`Xillybus.LossOfOneMissingPacket`).
- **Busy register.** The busy wait reads register 0x0021 (`busyAddr`).
- **PLL information register.** `SetPllFrequency` takes its starting control word from register 0x0003.
- **The CNT_IND field.** `SetPllClock` clears only bits 8..11 (`~(0xF<<8)`) but ORs in a 5-bit `cnt_ind`. Bit 12, once set, is never cleared again (`FpgaPll.PhaseWordBit12`).
- **A reading taken exactly at the limit.** Suppose the busy wait's last reading is taken exactly at 3000 ms and is not done. The loop stops, but only a reading strictly past the limit is reported as a timeout, so the wait reports success (`FpgaPll.WaitSuccess`).

## Model

| member | source | states |
|---|---|---|
| Base.Wrap16 | src/FPGA_common/FPGA_common.cpp:462-507 | conversion to `int16_t` keeps the value modulo 2^16 and is the identity on values already in range |
| Base.Wrap32 | src/ConnectionXillybus/ConnectionXillybusing.cpp:229-230 | conversion to `int32_t` lands in [-2^31, 2^31), agrees with the input modulo 2^32, and is the identity in range |
| Base.Sub64 | src/ConnectionXillybus/ConnectionXillybusing.cpp:258-315 | uint64 subtraction: the true difference when no borrow occurs, the difference plus 2^64 otherwise |
| PllClock.DefaultClock | src/FPGA_common/FPGA_common.h:23-29 | the default clock has no phase search, no bypass, phase shift 0 and index 0; its frequencies are unset |
| PllClock.WithOutput | src/FPGA_common/FPGA_common.h:30-35 | setting the output frequency changes only `outFrequency` |
| PllClock.DefaultThenOutput | src/FPGA_common/FPGA_common.h:21-36 | a default clock with any output set is accepted by `SetPllFrequency`, and with a non-zero one has a frequency the later stages can divide by; it keeps every constructor default; `rd_actualFrequency` stays unset |
| SampleCodec.SignExtend12 | src/FPGA_common/FPGA_common.cpp:476-477 | the `<<4 >>4` sign extension of a 12-bit field lands in [-2048, 2047]: the field itself below 0x800, the field minus 0x1000 from there on |
| SampleCodec.DecodeFrame12Range | src/FPGA_common/FPGA_common.cpp:473-485 | every 3-byte slot decodes to I and Q in [-2048, 2047] |
| SampleCodec.DecodeFrame16LittleEndian | src/FPGA_common/FPGA_common.cpp:499-507 | a 4-byte slot decodes to I = the little-endian word of bytes 0-1 and Q = that of bytes 2-3, each read as two's complement |
| SampleCodec.FrameRoundTrip | src/FPGA_common/FPGA_common.cpp:533-553 | decoding an encoded slot gives the sample back: in the packed format for I and Q in [-2048, 2047], in the 16-bit format for every `int16` |
| SampleCodec.Frame12BytesRoundTrip | src/FPGA_common/FPGA_common.cpp:473-485 | re-encoding a decoded 3-byte slot yields the same three bytes: the packed decoder loses nothing |
| SampleCodec.Frame16BytesRoundTrip | src/FPGA_common/FPGA_common.cpp:499-507 | re-encoding a decoded 4-byte slot yields the same four bytes |
| SampleCodec.FrameBytesRoundTrip | src/FPGA_common/FPGA_common.cpp:473-507 | every decoded slot is representable in its format, and encoding it reproduces the slot's bytes |
| SampleCodec.OffsetParts | src/FPGA_common/FPGA_common.cpp:467-474 | byte `b + frameSize*ch + j` of slot k lies in stride k, channel ch, lane j: position determines its owner |
| SampleCodec.PositionParts | src/FPGA_common/FPGA_common.cpp:467-474 | every byte position belongs to exactly one (slot, channel, lane) with channel < chCount and lane < frameSize |
| SampleCodec.OffsetInjective | src/FPGA_common/FPGA_common.cpp:531-537 | two channels or two slots never write the same byte: channel regions never overlap |
| SampleCodec.SlotBelow | src/FPGA_common/FPGA_common.cpp:529-537 | a byte belongs to one of the first `count` strides exactly when it lies below `count*stride` |
| SampleCodec.DecodedCountBound | src/FPGA_common/FPGA_common.cpp:471 | the decoder visits stride m exactly when `m*stride < bufLen`; it reports the number of strides that begin inside the buffer |
| SampleCodec.DecodedCountOfWholeSlots | src/FPGA_common/FPGA_common.cpp:467-471 | a buffer of `count` whole strides decodes to `count` samples per channel |
| SampleCodec.FrameInside | src/FPGA_common/FPGA_common.cpp:471-485 | each slot a decoder reads lies below `count*stride` |
| SampleCodec.SlotInside | src/FPGA_common/FPGA_common.cpp:471-485 | a stride begun inside the buffer is one of the decoded ones, and its bytes lie inside the decoded strides |
| SampleCodec.DecodeInto | src/FPGA_common/FPGA_common.cpp:473-486 | one pass of the decoder's inner loop sets `samples[ch][k]` to the sample of slot (k, ch) and changes no other sample |
| SampleCodec.DecodeChannel | src/FPGA_common/FPGA_common.cpp:468-488 | the loop for one channel reports one sample per stride begun in the buffer, fills that channel's row with the decoded slots, and leaves every other entry alone; its slot index does not wrap (Findings row 3) |
| SampleCodec.PayloadToSamples | src/FPGA_common/FPGA_common.cpp:458-517 | an unsupported format is EINVAL with no count and no sample written; otherwise status 0, count = the number of strides, every channel row = the decoded slots, nothing else changed, for every bufLen (Findings row 3) |
| SampleCodec.WrappedSlotStep | src/FPGA_common/FPGA_common.cpp:471 | the closed form of the uint16_t slot counter starts at 0, and each pass adds stepSize to it modulo 2^16, as `b += stepSize` does |
| SampleCodec.DecoderIndexWraps | src/FPGA_common/FPGA_common.cpp:467-471 | for two packed channels the uint16_t counter stays below bufLen = 65535 at every step, so the loop as written never ends |
| SampleCodec.PartialComplete | src/FPGA_common/FPGA_common.cpp:524-540 | after the channel loop has run through every channel, the buffer is the full encoded image |
| SampleCodec.EncodeSlot | src/FPGA_common/FPGA_common.cpp:531-537 | one pass of the inner encoder loop writes exactly the bytes of slot (src, ch) with the encoded sample |
| SampleCodec.EncodeChannel | src/FPGA_common/FPGA_common.cpp:527-540 | the loop for one channel writes that channel's slot in every stride and leaves `b = samplesCount*stride` |
| SampleCodec.SamplesToPayload | src/FPGA_common/FPGA_common.cpp:519-563 | an unsupported format is EINVAL with the buffer untouched and no length; otherwise status 0, `bufLen = samplesCount*frameSize*chCount`, and the buffer is the encoded image: every channel slot encoded, bytes past the strides as they were |
| SampleCodec.EncodedFrame | src/FPGA_common/FPGA_common.cpp:531-557 | in the encoded image the slot of channel c, sample k holds exactly the encoding of `samples[c][k]` |
| SampleCodec.PayloadRoundTrip | src/FPGA_common/FPGA_common.cpp:519-563 | decoding an encoded payload gives back every channel's samples for every representable input, and the decoder reports `samplesCount` |
| SampleCodec.PayloadBytesRoundTrip | src/FPGA_common/FPGA_common.cpp:458-511 | encoding the decoded samples of a buffer over the same buffer changes no byte |
| RegisterPort.ApplyIsLastWrite | src/FPGA_common/FPGA_common.cpp:182-184 | after a batch each register holds its last write, and a register the batch does not write keeps its value |
| RegisterPort.Port.ReadRegister | src/FPGA_common/FPGA_common.cpp:41-43 | a read returns the lower 16 bits of the register; when reads of the address fail it returns a failure with the destination left at zero |
| RegisterPort.Port.WriteRegisters | src/FPGA_common/FPGA_common.cpp:182-184 | a batch is written in order and logged, or refused whole when writes to one of its addresses fail |
| RegisterPort.Port.ReadBusy | src/FPGA_common/FPGA_common.cpp:114-118 | a read of the busy register yields the next supplied reading |
| RegisterPort.Port.WriteRegister | src/FPGA_common/FPGA_common.cpp:47 | one write is logged and applied, or refused with a failure status when writes to the address fail |
| RegisterPort.Port.ReceiveData | src/ConnectionXillybus/ConnectionXillybusing.cpp:187 | one receive returns at most the requested bytes: the next supplied block, cut to length, or nothing once the blocks are used up; no register changes |
| RawCapture.PrepareCapture | src/ConnectionXillybus/ConnectionXillybusing.cpp:181-185 | the capture first stops the endpoint, then writes 0x0008 = 0x0102 and 0x0007 = 1, each write on its own |
| RawCapture.StartAndReceive | src/ConnectionXillybus/ConnectionXillybusing.cpp:186-187 | starting the endpoint writes exactly the start step, and the block received is the next raw read cut to the requested length, or nothing when no read is left |
| RawCapture.ReadRawStreamData | src/ConnectionXillybus/ConnectionXillybusing.cpp:179-191 | the capture returns the received block, and its writes are exactly stop, set-up, start and stop, each computed on the register file the previous ones left |
| RawCapture.CaptureSteps | src/ConnectionXillybus/ConnectionXillybusing.cpp:181-189 | the capture's writes are those of its parts in order, and applying them gives the register file after the last stop |
| RawCapture.CaptureWritesRegisters | src/ConnectionXillybus/ConnectionXillybusing.cpp:179-191 | a capture writes only 0x000A, 0x0008 and 0x0007 |
| RawCapture.CaptureEndsStopped | src/ConnectionXillybus/ConnectionXillybusing.cpp:181-189 | when 0x000A can be read and written, a capture leaves both bits of the endpoint clear; the set-up registers hold 0x0102 and 1 when their writes go through |
| FpgaStreaming.SetMask | src/FPGA_common/FPGA_common.cpp:45-46 | OR with a mask sets the mask's bits and keeps every other bit |
| FpgaStreaming.ClearMask | src/FPGA_common/FPGA_common.cpp:56-57 | AND with the inverted mask clears the mask's bits and keeps every other bit |
| FpgaStreaming.StartStreaming | src/FPGA_common/FPGA_common.cpp:39-48 | a failed read of 0x000A returns its status with no write; otherwise one write of 0x000A with bit `2*ep` set and all other bits preserved, logged unless writes to 0x000A fail; the write's status is returned |
| FpgaStreaming.StopStreaming | src/FPGA_common/FPGA_common.cpp:50-59 | a failed read returns its status with no write; otherwise one write of 0x000A with bits `2*ep` and `2*ep+1` cleared and everything else as read; the read's status, 0, is returned even when the write fails |
| FpgaStreaming.ResetTimestamp | src/FPGA_common/FPGA_common.cpp:61-84 | EPERM exactly when a debug build finds the endpoint receiving; otherwise 0; the three 0x0009 writes (low, high, low) are made exactly when the reads succeed and streaming is off or unchecked, and they reach the register unless writes to 0x0009 fail |
| FpgaStreaming.PulseCounterClear | src/FPGA_common/FPGA_common.cpp:78-82 | the reset pulse appends exactly the three 0x0009 writes, or nothing when writes to 0x0009 fail |
| FpgaStreaming.StartThenStop | src/FPGA_common/FPGA_common.cpp:39-59 | stopping after starting leaves the endpoint's pair of bits clear and every other bit as originally read |
| FpgaPll.FinalReadingStops | src/FPGA_common/FPGA_common.cpp:112-120 | the wait loop ends on a reading that is done, has an error code, or is at or past 3000 ms, and consumes at least one reading |
| FpgaPll.WaitSuccess | src/FPGA_common/FPGA_common.cpp:112-124 | a wait that succeeds saw the done bit or ended exactly at the limit; one that sees done in time without an error code succeeds |
| FpgaPll.AwaitDone | src/FPGA_common/FPGA_common.cpp:109-124 | the busy wait returns ENODEV past the limit, EBUSY on an error code, 0 otherwise (and always 0 on a non-QPCIe board), writing nothing |
| FpgaPll.PhaseWordCounter | src/FPGA_common/FPGA_common.cpp:95-97 | bits 8..11 of the new control word hold the low four bits of `cnt_ind` |
| FpgaPll.PhaseWordBit12 | src/FPGA_common/FPGA_common.cpp:96-97 | bit 12 of the new word is the old bit 12 OR the fifth bit of `cnt_ind`: it is never cleared |
| FpgaPll.PhaseWordDirection | src/FPGA_common/FPGA_common.cpp:98-101 | PHCFG_UPDN is set exactly for a non-negative step count |
| FpgaPll.PhaseWordKeeps | src/FPGA_common/FPGA_common.cpp:96-101 | bits 0..7 and 14..15 of reg23val are unchanged |
| FpgaPll.PhaseWordIdempotent | src/FPGA_common/FPGA_common.cpp:96-101 | building the word twice for the same clock and direction gives the same word |
| FpgaPll.WriteWaitWrite | src/FPGA_common/FPGA_common.cpp:105-127 | writes the first batch, waits, and writes the release batch only when the wait succeeded; returns the wait's verdict |
| FpgaPll.SetPllClock | src/FPGA_common/FPGA_common.cpp:86-129 | writes 0x0023 (PLLCFG_START low), 0x0024 = abs(nSteps), 0x0023 = the new word, the new word with PHCFG_START; waits; on success writes the word without PHCFG_START; returns the wait's verdict and the updated reg23val |
| FpgaPll.PllSelectIndex | src/FPGA_common/FPGA_common.cpp:170-175 | bits 3..7 of the selected word hold pllIndex |
| FpgaPll.PllSelectClears | src/FPGA_common/FPGA_common.cpp:171-174 | PLLCFG_START, PHCFG_START, PLLRST_START and PHCFG_UPDN are clear |
| FpgaPll.PllSelectKeeps | src/FPGA_common/FPGA_common.cpp:170-175 | bits 8..12 and 14..15 of the register read are kept |
| FpgaPll.DividerLow | src/FPGA_common/FPGA_common.cpp:268 | the low byte of a divider word is `d/2` |
| FpgaPll.DividerHigh | src/FPGA_common/FPGA_common.cpp:269 | the high byte is `d/2 + d%2` |
| FpgaPll.DividerHalvesSum | src/FPGA_common/FPGA_common.cpp:283-286 | high + low = d: the two counts make up the divider |
| FpgaPll.DividerHalvesDiffer | src/FPGA_common/FPGA_common.cpp:283-286 | high - low = d % 2 |
| FpgaPll.DividerFits | src/FPGA_common/FPGA_common.cpp:285-286 | a divider up to 510 packs into 16 bits |
| FpgaPll.MNFlags | src/FPGA_common/FPGA_common.cpp:277-281 | bit 3 = M odd, bit 2 = M bypass (M == 1), bit 1 = N odd, bit 0 = N bypass (N == 1), nothing above bit 3 |
| FpgaPll.AllBypassedValue | src/FPGA_common/FPGA_common.cpp:288-289 | the initial flag words have the register value 0x5555 |
| FpgaPll.FlagValueBit | src/FPGA_common/FPGA_common.cpp:298-307 | bit k of a flag word's register value is flag k, the bit that the source's masks `1 << k` set and clear |
| FpgaPll.FlagStep | src/FPGA_common/FPGA_common.cpp:297-308 | output j's bypass bit is cleared when it is enabled, its odd bit is set when C is odd, and no other bit changes |
| FpgaPll.LowFlagBits | src/FPGA_common/FPGA_common.cpp:297-302 | in `c7_c0_odds_byps`, output j < 8 is bypassed exactly when not enabled and odd exactly when C is odd; an unconfigured output stays bypassed and even |
| FpgaPll.HighFlagBits | src/FPGA_common/FPGA_common.cpp:303-308 | the same for outputs 8..15 in `c15_c8_odds_byps` |
| FpgaPll.OutputFlagBits | src/FPGA_common/FPGA_common.cpp:288-311 | for each of the sixteen outputs the flags record bypass exactly when bypassed or C == 1 and odd exactly when C is odd |
| FpgaPll.OutputFlagRegisterBits | src/FPGA_common/FPGA_common.cpp:288-313 | the same about the values written to 0x0027 and 0x0028: for output i, bit 2(i mod 8) is set exactly when it is bypassed or C == 1 and bit 2(i mod 8)+1 exactly when C is odd; an output past the configured ones reads bypassed and even |
| PllStages.CheckRanges | src/FPGA_common/FPGA_common.cpp:153-159 | 0 exactly when the input and every non-bypassed output are at least 5 MHz, ERANGE otherwise, in particular for a non-bypassed output of 0 Hz |
| PllStages.VcoTestsAgree | src/FPGA_common/FPGA_common.cpp:270-275 | the double-precision VCO test accepts every in-range Fvco, and accepts an out-of-range one only for N = 0 and input*M = 0 |
| PllStages.VcoNanPasses | src/FPGA_common/FPGA_common.cpp:270-275 | with M = N = 0 the test as written passes (0/0 is NaN), though no VCO is in range |
| PllStages.CDividerNearest | src/FPGA_common/FPGA_common.cpp:294 | `C = int(Fvco/fout + 0.5)` is the integer nearest to Fvco/fout, ties up |
| PllStages.Dividers | src/FPGA_common/FPGA_common.cpp:292-296 | one divider per output: its bypass flag and its C |
| PllStages.DividerWrites | src/FPGA_common/FPGA_common.cpp:309 | one divider register write per output |
| PllStages.DisableDirectClock | src/FPGA_common/FPGA_common.cpp:161-164 | 0x0005 is written back with pllIndex's bit cleared, from zero when the read fails; the write is logged unless writes to 0x0005 fail |
| PllStages.SelectPll | src/FPGA_common/FPGA_common.cpp:166-175 | a failed read of 0x0003 is ENODEV; otherwise the selected word is returned with nothing written |
| PllStages.ResetPll | src/FPGA_common/FPGA_common.cpp:182-199 | writes the selected word, then the same with PLLRST_START, and returns the wait's verdict |
| PllStages.ProgramOutputs | src/FPGA_common/FPGA_common.cpp:292-311 | the output loop produces every divider write and both flag words, and sets each `rd_actualFrequency` to Fvco/C |
| PllStages.CommitConfiguration | src/FPGA_common/FPGA_common.cpp:201-331 | writes the batch (PLLRST_START low, 0x0026, 0x002A, 0x002B, 0x002E+i, 0x0027, 0x0028, PLLCFG_START) and returns the wait's verdict |
| VcoSearch.MultiplesBetweenMembers | src/FPGA_common/FPGA_common.cpp:211-216 | the enumerated frequencies are exactly the multiples of fout in the quotient range |
| VcoSearch.EndQuotientBound | src/FPGA_common/FPGA_common.cpp:211 | the enumeration runs while the multiple is at most 1050 MHz |
| VcoSearch.CandidatesAsWritten | src/FPGA_common/FPGA_common.cpp:209-216 | as written, an output contributes the multiples of fout in (600 MHz, 1050 MHz]: 600 MHz itself is never a candidate |
| VcoSearch.Candidates | src/FPGA_common/FPGA_common.cpp:209-216 | corrected, an output contributes the multiples of fout in [600 MHz, 1050 MHz] |
| VcoSearch.SixHundredMegahertzOutput | src/FPGA_common/FPGA_common.cpp:210 | a 600 MHz output gets no candidate as written, but 600 MHz is one when corrected |
| VcoSearch.AddMultiples | src/FPGA_common/FPGA_common.cpp:211-216 | the while loop adds exactly the multiples from the start to the last one in range |
| VcoSearch.AllCandidatesMembers | src/FPGA_common/FPGA_common.cpp:206-217 | a frequency is a candidate exactly when it is in the VCO range and a multiple of some output frequency |
| VcoSearch.EnumerateVcos | src/FPGA_common/FPGA_common.cpp:206-217 | the loop over outputs collects exactly the candidates, with the corrected first candidate of Findings row 1 |
| VcoSearch.ScoreCounts | src/FPGA_common/FPGA_common.cpp:223-230 | a score is at most the number of outputs; it is maximal exactly when every output divides the VCO and zero exactly when none does |
| VcoSearch.ScoreOf | src/FPGA_common/FPGA_common.cpp:223-230 | the inner loop counts the enabled outputs that divide the candidate |
| VcoSearch.ScoreVcos | src/FPGA_common/FPGA_common.cpp:219-235 | every candidate is scored; bestScore bounds every score and is attained, or is 0 |
| PhaseCalibration.ScanPosInPage | src/FPGA_common/FPGA_common.cpp:360-363 | each checked triplet lies inside its own 4096-byte page, past its 16-byte header |
| PhaseCalibration.ScanPattern | src/FPGA_common/FPGA_common.cpp:358-374 | a capture passes exactly when it has `testSize` bytes and every checked triplet is AA 5A 55 |
| PhaseCalibration.FirstPassIsFirst | src/FPGA_common/FPGA_common.cpp:376-379 | min is taken at the first passing capture: it passes and every earlier one failed; with none, all failed |
| PhaseCalibration.FirstFailAfterIsFirst | src/FPGA_common/FPGA_common.cpp:380-384 | max is taken at the first failure after min, and every capture in between passed |
| PhaseCalibration.SearchSteps | src/FPGA_common/FPGA_common.cpp:350-351 | nSteps is at least one |
| PhaseCalibration.VisitedPhasesBound | src/FPGA_common/FPGA_common.cpp:354 | the loop visits phase k exactly when `k*nSteps*Fstep_deg <= 360` |
| PhaseCalibration.PhaseRange | src/FPGA_common/FPGA_common.cpp:354 | every visited phase lies in (0, 360] |
| PhaseCalibration.PhaseIncreasing | src/FPGA_common/FPGA_common.cpp:354 | the visited phases strictly increase |
| PhaseCalibration.Results | src/FPGA_common/FPGA_common.cpp:354-374 | one scan result per visited phase |
| PhaseCalibration.WindowInTurn | src/FPGA_common/FPGA_common.cpp:346-392 | a window that was found satisfies 0 < min <= max <= 360 (min = max = 360 is possible), and `(min+max)/2` lies inside it |
| PhaseCalibration.VisitPhase | src/FPGA_common/FPGA_common.cpp:356-374 | one step and capture: the result is that capture's scan and one capture is used; the only registers written are the phase registers and the capture's 0x000A, 0x0008 and 0x0007 |
| PhaseCalibration.CaptureAndScan | src/FPGA_common/FPGA_common.cpp:358-374 | one capture of the test buffer is used up and its scan is the result; the log gains exactly the capture's writes (stop, set-up of 0x0008 and 0x0007, start, stop) and the registers are those writes applied, so only 0x000A, 0x0008 and 0x0007 change |
| PhaseCalibration.WindowAdvance | src/FPGA_common/FPGA_common.cpp:376-384 | one pass of the if/else on result and min keeps min equal to the phase of the first pass, and closes the window at the first failure after it |
| PhaseCalibration.WindowOpenToEnd | src/FPGA_common/FPGA_common.cpp:354-385 | a loop that visits every phase without closing leaves the window open at max = 360 |
| PhaseCalibration.StepPhase | src/FPGA_common/FPGA_common.cpp:353 | one unchecked SetPllClock takes no capture, updates reg23val, and writes only calibration registers |
| PhaseCalibration.SetPllClockRegisters | src/FPGA_common/FPGA_common.cpp:93-103 | SetPllClock writes only registers 0x0023 and 0x0024 |
| PhaseCalibration.Calibrate | src/FPGA_common/FPGA_common.cpp:346-387 | the search returns the window (min, max) of its captures and uses exactly the captures up to the closing one; the only registers written are the phase registers and the capture registers; the returned control word is the phase word with the output's counter index and the up direction, as every step leaves it |
| PllConfiguration.TruncToInt | src/FPGA_common/FPGA_common.cpp:341 | `int(x)` truncates toward zero |
| PllConfiguration.Searches | src/FPGA_common/FPGA_common.cpp:339 | output i asks for a search exactly when its findPhase is set |
| PllConfiguration.SearchedClockPhase | src/FPGA_common/FPGA_common.cpp:389-401 | after a search findPhase is cleared and only the phase changes: to `(min+max)/2`, inside the window, when a capture passed |
| PllConfiguration.SearchPhase | src/FPGA_common/FPGA_common.cpp:344-402 | the searched clock is the calibrated one; the only registers written are the phase registers and the capture registers |
| PllConfiguration.PhaseStage | src/FPGA_common/FPGA_common.cpp:333-405 | with no output asking for a search it returns 0 and leaves the clocks alone; otherwise the first such output is searched and updated and the routine runs again; actual frequencies are kept |
| PllConfiguration.NoCandidates | src/FPGA_common/FPGA_common.cpp:236-275 | with no VCO candidate M = N = 0: the corrected test refuses, while the test as written lets it through |
| PllConfiguration.ResetStage | src/FPGA_common/FPGA_common.cpp:161-199 | the direct-clock write, then ENODEV on a failed 0x0003 read, else the reset pulse and its wait verdict, with exactly those writes |
| PllConfiguration.ConfigureStage | src/FPGA_common/FPGA_common.cpp:201-405 | ERANGE exactly when the VCO is out of range, with nothing written and the clocks untouched; otherwise the configuration batch (the reset bit low, M and N, the dividers, both flag words, the start bit) is logged whole, or not at all when a write of it fails, a failed wait ends with its ENODEV or EBUSY verdict and nothing more, and after a passed wait it is Ok when no output asks for a phase search and to run again when one does, with only phase and capture registers written after the batch (`ConfigureEffect`, `CommitEffect`); the clocks are stated for every outcome (`ConfigureClocks`): untouched on ERANGE, every actual frequency Fvco/C and every other field kept after the batch, even when its wait fails, and on a rerun the searched clock alone has findPhase cleared and its phase moved to the middle of the passing window; candidates are those of the corrected enumeration (Findings row 1) |
| PllConfiguration.CommitStage | src/FPGA_common/FPGA_common.cpp:276-405 | the configuration batch logged whole, or not at all when a write of it fails, then the wait's ENODEV or EBUSY verdict, or Ok or a rerun as the phase stage decides (`CommitEffect`); the clocks hold their actual frequencies Fvco/C from before the batch, with the first clock asking for a phase search searched on a rerun (`CommitClocks`) |
| PllConfiguration.RunStages | src/FPGA_common/FPGA_common.cpp:161-405 | the reset stage then the configuration stage: ENODEV on a failed 0x0003 read; otherwise the direct-clock write and the reset pulse are logged, a failed reset wait ends with its verdict, and after a passed one the stage goes on as `ConfigureEffect` says (`StagesEffect`); the clocks are untouched on the 0x0003 failure and on a failed reset wait, and otherwise as `ConfigureClocks` says (`StagesClocks`) |
| PllConfiguration.SetPllFrequency | src/FPGA_common/FPGA_common.cpp:138-407 | ENODEV for a null or closed port, with the clocks untouched; a warning exactly for pllIndex > 15; ERANGE with no write and the clocks untouched for out-of-range inputs, a non-bypassed 0 Hz output included; ENODEV on a failed 0x0003 read with the clocks untouched; otherwise the direct-clock, reset and configuration writes, each wait's verdict, and the outcome as `StagesEffect` says, so, with the port open, the inputs in range and 0x0003 readable, Ok is reached exactly when both waits pass, the VCO is in range and no output asks for a phase search; success only with a VCO in range and every actual frequency set; the clocks after the reset as `StagesClocks` says, which gives the searched clock's new phase and cleared findPhase on a rerun; never success without a VCO candidate (the correction of Findings row 2); candidates are those of the corrected enumeration (Findings row 1) |
| PllConfiguration.SetDirectClocking | src/FPGA_common/FPGA_common.cpp:409-454 | ENODEV for a null or closed port; otherwise one write of 0x0005 with the clock's bit set, from zero when the read fails; EIO exactly when writes to 0x0005 fail |
| Xillybus.PacketsToBatch | src/ConnectionXillybus/ConnectionXillybusing.cpp:213 | `packetsToBatch` is a uint8_t |
| Xillybus.PacketsToBatchRange | src/ConnectionXillybus/ConnectionXillybusing.cpp:211-214 | `1 << tmp_cnt` in a uint8_t is 2^tmp_cnt, between 1 and 128, for tmp_cnt < 8, and 0 from 8 on |
| Xillybus.SamplesInPacketMatchesCodec | src/ConnectionXillybus/ConnectionXillybusing.cpp:203 | for one or two channels `1360/chCount` or `1020/chCount` equals the number of samples the codec decodes from a 4080-byte payload |
| Xillybus.AccountDrops | src/ConnectionXillybus/ConnectionXillybusing.cpp:326-334 | the channel loop adds each queue's shortfall to droppedSamples |
| Xillybus.ReceivePacket | src/ConnectionXillybus/ConnectionXillybusing.cpp:294-334 | one pass of the packet loop computes the specified step: late flag, loss, timestamps, drops |
| Xillybus.ScanPackets | src/ConnectionXillybus/ConnectionXillybusing.cpp:292-335 | the packet loop computes the specified scan of the batch |
| Xillybus.ReceiveBatch | src/ConnectionXillybus/ConnectionXillybusing.cpp:285-360 | one pass of the receive loop: read accounting, the packet scan, then the per-second reset |
| Xillybus.ScanTimestamps | src/ConnectionXillybus/ConnectionXillybusing.cpp:317-318 | the scan leaves prevTs and rxLastTimestamp at the last packet's counter and touches neither failures nor byte totals |
| Xillybus.BatchAccounting | src/ConnectionXillybus/ConnectionXillybusing.cpp:287-290 | the byte total grows by the bytes received; failures grow by one exactly when the read was short (the loop goes on); a second's end zeroes the counters |
| Xillybus.LateOncePerBatch | src/ConnectionXillybus/ConnectionXillybusing.cpp:292-308 | the cool-down advances exactly once when some packet has bit 3 of reserved[0] set, and not at all otherwise |
| Xillybus.DelayStaysBounded | src/ConnectionXillybus/ConnectionXillybusing.cpp:257-306 | the cool-down starts at 128 and every pass of the receive loop keeps it in [0, max(128, 2*packetsToBatch)] |
| Xillybus.NoLossInOrder | src/ConnectionXillybus/ConnectionXillybusing.cpp:310-316 | counters that repeat or advance by samplesInPacket add no loss |
| Xillybus.LossOfOneMissingPacket | src/ConnectionXillybus/ConnectionXillybusing.cpp:310-317 | from the start counters 0, S, 3S add 2 to the loss |
| Xillybus.DropAfterShortfall | src/ConnectionXillybus/ConnectionXillybusing.cpp:326-334 | droppedSamples grows by the total shortfall (modulo 2^32), and not at all when every queue took everything |
| Xillybus.Overwrite | src/ConnectionXillybus/ConnectionXillybusing.cpp:424 | a queue read replaces the first entries of the vector with what it delivered and keeps the rest, so the vector keeps its length |
| Xillybus.Refill | src/ConnectionXillybus/ConnectionXillybusing.cpp:422-431 | one pass's reads overwrite each channel's vector and leave the number of vectors alone |
| Xillybus.RefillContents | src/ConnectionXillybus/ConnectionXillybusing.cpp:422-431 | entry k of channel c after a pass is the k-th sample that pass delivered to c when there is one, and otherwise what the vector held |
| Xillybus.InitialVectors | src/ConnectionXillybus/ConnectionXillybusing.cpp:392-397 | the loop starts with maxSamplesBatch zero samples per channel |
| Xillybus.VectorsAfterSized | src/ConnectionXillybus/ConnectionXillybusing.cpp:392-431 | the vectors keep chCount entries of maxSamplesBatch samples through any number of pops |
| Xillybus.RefillSends | src/ConnectionXillybus/ConnectionXillybusing.cpp:422-444 | after a full read the vector holds exactly the popped samples; past the end of a short read it holds what the earlier reads left |
| Xillybus.Stamped | src/ConnectionXillybus/ConnectionXillybusing.cpp:434-444 | a stamped slot carries the popped timestamp; bit 4 of reserved[0] is set exactly when SYNC_TIMESTAMP is absent, the low nibble is 0, and the payload length is kept |
| Xillybus.PacketFits | src/ConnectionXillybus/ConnectionXillybusing.cpp:391 | maxSamplesBatch samples of every channel fit the 4080-byte payload |
| Xillybus.StampedPayloadDecodes | src/ConnectionXillybus/ConnectionXillybusing.cpp:440-444 | the payload of a stamped packet decodes to the samples vectors of every channel |
| Xillybus.StampedSendsPop | src/ConnectionXillybus/ConnectionXillybusing.cpp:422-444 | a packet stamped after a pop decodes to each channel's popped samples, and past a short read to the samples the earlier reads left |
| Xillybus.Filled | src/ConnectionXillybus/ConnectionXillybusing.cpp:418-433 | the number of slots filled never exceeds packetsToBatch nor the pops available |
| Xillybus.FilledStops | src/ConnectionXillybus/ConnectionXillybusing.cpp:418-433 | no slot is filled after a pop that saw stop; the fill ends at packetsToBatch, at the first stop, or when pops run out |
| Xillybus.FilledIsFirstStop | src/ConnectionXillybus/ConnectionXillybusing.cpp:418-433 | any count with those properties is the one filled: the fill is unique |
| Xillybus.Consumed | src/ConnectionXillybus/ConnectionXillybusing.cpp:418-433 | the slot loop reads the pops it stamps, plus the one after which it saw the stop flag |
| Xillybus.FillBatch | src/ConnectionXillybus/ConnectionXillybusing.cpp:416-447 | slots 0..i-1 are stamped in order, slot k from the vectors as pop k's reads left them; the rest are untouched; i is the fill count; the vectors carry every read made; samplesSent grows by i*maxSamplesBatch modulo 2^32 |
| Xillybus.StampSlot | src/ConnectionXillybus/ConnectionXillybusing.cpp:434-444 | stamping slot i from pop i extends the stamped prefix by one and leaves the later slots as they were |
| Xillybus.SendOutcome | src/ConnectionXillybus/ConnectionXillybusing.cpp:449-463 | the sent bytes are added and failures grows by one exactly when the send was short; a second's end zeroes failures, samplesSent and the byte total |
| Xillybus.TransmitBatch | src/ConnectionXillybus/ConnectionXillybusing.cpp:416-463 | one pass of the transmit loop: the batch fill with the vectors carried to the next pass, then the send accounting |
| Xillybus.PhaseSearchConditions | src/ConnectionXillybus/ConnectionXillybusing.cpp:77-81 | the phase search is on exactly when no streamer runs, chipVersion is 0x3841, both gateware numbers are high enough (revision at least 7, version at least 2) and one interface clock is at least 5 MHz |

## Left out

**Threads, time and transports**

- Threads and synchronisation are not modelled: the late-flag worker thread, its mutex and condition variable, and the atomic flags. A notification is counted in `RxCounters.notifications`, and the stop flag is an input of each pop.
- Wall-clock time becomes inputs: the busy-register readings carry their elapsed milliseconds, and the once-per-second reports are a `secondElapsed` flag. The 10 ms sleeps and the data-rate floats (`rxDataRate_Bps`, `txDataRate_Bps`) are not modelled.
- Transport calls are not modelled. For `ReceiveData` and `SendData` the model takes the byte counts they return; for the queue reads and writes (`RingFIFO`, `StreamChannel`) it takes the sample counts they return.
- A negative `bytesReceived` (a failed `ReceiveData`) is not modelled: the byte count is a natural number.
- The synthetic-data path of the receive loop is not modelled, and neither is the `StartStreaming` call after each batch.
- The `tmp_cnt` latency rounding is left out. `tmp_cnt` is an input.
- The SPI backup and restore, the test-pattern load and the phase polynomial of `UpdateExternalDataRate` are not modelled; only its eligibility test is.

**SetPllFrequency**

- The floating-point M/N deviation search is left out. M and N are inputs; with no VCO candidate the model takes M = N = 0, as the untouched initial values are.
- Floating-point rounding is not modelled. `Fvco` is exact, and the phase step is exactly 45/C degrees.
- The recursive re-invocation of `SetPllFrequency` after a phase search is not modelled: the result is `Repeat`.
- `SetPllFrequency` requires `clocks.Length <= 24`. For outputs from 8 on, the flag shifts are `(i-8)*2` and `(i-8)*2+1`, and from i = 24 on they reach 32 bits, where a shift of an `int` is undefined. It also requires pllIndex < 32, because the shift `1 << pllIndex` is undefined from 32 on. Every output's divider must fit its register (`DividersFit`).
- `SetPllFrequency` requires every output without a phase search to ask for a step count that fits an `int` (`PhaseStepsFit`). The source converts that count to `int`, which is undefined out of range.
- `SetPllFrequency` requires every output frequency to be set, and non-zero for a bypassed output (`Requested`). A bypassed output passes the range test and reaches the divisions by its frequency, where zero makes the division and the `int()` cast undefined. A non-bypassed output of 0 Hz is accepted and refused with ERANGE, as in the source.
- `PhaseCalibration.Calibrate`: the contract states only that the search writes the phase and capture registers alone (`CalibrationWritesSince`), not the exact sequence of step and capture writes.
- `PllConfiguration.CommitStage`, `PllConfiguration.ConfigureStage`, `PllConfiguration.RunStages` and `PllConfiguration.SetPllFrequency`: after the configuration batch's wait passes, only `CalibrationWritesSince` is stated for the phase stage's writes, as for `PhaseStage`.
- `PllConfiguration.PhaseStage`: like `Calibrate`, the contract states only that the stage writes the phase and capture registers alone (`CalibrationWritesSince`), not the exact sequence of writes.
- `PhaseCalibration.VisitPhase`, `PhaseCalibration.StepPhase` and `PllConfiguration.SearchPhase`: the same, `CalibrationWritesSince` rather than the exact writes.

**Other routines**

- `PllConfiguration.SetDirectClocking` requires `clockIndex < 32`, because the source's shift `1 << clockIndex` of an `int` is undefined from 32 on.
- `PllConfiguration.DirectClockOn`, `FpgaStreaming.StartWord` and `FpgaStreaming.StopWord` have no contract of their own. They are the `SetMask` and `ClearMask` contracts applied to a bit mask.
- `RawCapture.ReadRawStreamData`: the host-side calls `ResetStreamBuffers` and `AbortReading` are not part of this model and are taken to write no register. The receive timeout is not modelled; the received block is an input. The returned count is the block itself.
- The interface clocks of `UpdateExternalDataRate` are `float`s (`2 * rate`). The model computes them exactly, so a rate whose doubled `float` rounds across 5 MHz is judged by its exact value.
- `SampleCodec.PayloadToSamples` and `SampleCodec.SamplesToPayload` require `frameSize*chCount < 256` (`DecodeFits`, `Stride < 0x100`). The source keeps it in a `uint8_t` `stepSize` that wraps, and loops over channels with a `uint8_t`. The callers use one or two channels.
- The receive-side per-second reset of `samplesReceived[0]` is not modelled, because that counter feeds only the debug print.
- `Xillybus.Stamped` writes only `reserved[0]`. The other reserved bytes of the header are kept from the buffer's previous contents, as the source leaves them.
- `Xillybus.TransmitBatch` sends the whole buffer even after an early stop, as the source does. The slots not refilled keep their previous packets.
- `Xillybus.FillBatch` and `Xillybus.TransmitBatch` require a supported link format (`Supported`). With any other format the source's encoder returns EINVAL, which the transmit loop ignores: the packet is stamped and sent with its payload left as it was, and 1020/chCount samples are counted per packet. That path is not modelled.

## Findings

| source | as written | input that shows it | evidently intended | confidence | as-written member | corrected member |
|---|---|---|---|---|---|---|
| src/FPGA_common/FPGA_common.cpp:210 | the first VCO candidate of an output is `out*(int(600e6/out)+1)`, which skips 600 MHz whenever `out` divides it exactly | output of 600 MHz (or 300 MHz, 200 MHz, ...): 600 MHz, the only or the lowest valid VCO, is never a candidate; a 600 MHz output gets no candidate at all | every multiple of the output frequency in [600 MHz, 1050 MHz] is a candidate, the range the VCO test at line 274 accepts | not executed | VcoSearch.CandidatesAsWritten | VcoSearch.Candidates |
| src/FPGA_common/FPGA_common.cpp:274 | with no VCO candidate M and N stay 0, `Fvco = inputFreq*0/0` is NaN, and both comparisons with NaN are false, so the range test passes and the PLL is programmed with M = N = 0 | one configured output of exactly 600 MHz (no candidate, by the finding above) | a missing or out-of-range VCO is ERANGE | not executed | PllStages.VcoNanPasses | PllConfiguration.SetPllFrequency |
| src/FPGA_common/FPGA_common.cpp:471 | the decoder's slot counter `b` is a `uint16_t` while `bufLen` is a `size_t`, so once the counter passes 65535 it wraps and the loop goes on | two channels of the 12-bit packed format (stepSize 6) and bufLen = 65535: `b` goes 0, 6, ..., 65532, then wraps to 2, and takes only even values below 65535, so `b < bufLen` never fails | a counter as wide as `bufLen`, so that the loop decodes the ceil(bufLen/stepSize) strides and ends | not executed | SampleCodec.DecoderIndexWraps | SampleCodec.PayloadToSamples |
