/** The register-level steps of FPGA PLL configuration in FPGA_common.cpp: the busy
    wait, SetPllClock's phase-step control word, and the words SetPllFrequency writes
    to the PLL configuration registers 0x0023..0x0037. */
module FpgaPll {
  import opened Base
  import opened Arith
  import opened RegisterPort
  import opened FpgaStreaming

  const PllCtrl: nat := 0x0023
  const PhaseCount: nat := 0x0024

  /** Bits of register 0x0023. */
  const PllCfgStart: bv32 := 0x1
  const PhCfgStart: bv32 := 0x2
  const PllRstStart: bv32 := 0x4
  const PhCfgUpDn: bv16 := 0x2000

  // ---------------------------------------------------------------------------
  // The busy wait on register 0x0021

  /** Bit 0 of the busy register: the operation is done. */
  predicate Done(s: BusySample)
  {
    s.word & 1 == 1
  }

  /** Bits 7..14 of the busy register, read into a uint8_t. */
  function ErrorCode(s: BusySample): bv16
  {
    (s.word >> 7) & 0xFF
  }

  /** The do-while loop ends on a reading that is done, shows an error, or was taken
      at or after the three-second limit. */
  predicate Stops(s: BusySample)
  {
    Done(s) || ErrorCode(s) != 0 || s.elapsedMs >= TimeoutMs
  }

  /** The reading a wait over the supplied readings ends on. */
  function FinalReading(busy: seq<BusySample>): BusySample
    decreases |busy|
  {
    if busy == [] then NextBusy([])
    else if Stops(busy[0]) then busy[0]
    else FinalReading(busy[1..])
  }

  /** The readings left for later waits. */
  function AfterWait(busy: seq<BusySample>): seq<BusySample>
    decreases |busy|
  {
    if busy == [] then []
    else if Stops(busy[0]) then busy[1..]
    else AfterWait(busy[1..])
  }

  /** What the code after the loop returns for the reading the loop ended on: ENODEV
      past the limit, EBUSY for an error code, 0 otherwise. */
  function Verdict(s: BusySample): Status
  {
    if s.elapsedMs > TimeoutMs then Err(ENODEV)
    else if ErrorCode(s) != 0 then Err(EBUSY)
    else Ok
  }

  /** The outcome of a wait: only the QPCIe board polls; on every other board the
      loop is skipped and the wait succeeds. */
  function WaitOutcome(isQPCIe: bool, busy: seq<BusySample>): Status
  {
    if isQPCIe then Verdict(FinalReading(busy)) else Ok
  }

  function WaitRest(isQPCIe: bool, busy: seq<BusySample>): seq<BusySample>
  {
    if isQPCIe then AfterWait(busy) else busy
  }

  lemma {:induction false} FinalReadingStops(busy: seq<BusySample>)
    ensures Stops(FinalReading(busy))
    ensures |AfterWait(busy)| < |busy| || busy == []
    decreases |busy|
  {
    if busy != [] && !Stops(busy[0]) {
      FinalReadingStops(busy[1..]);
    }
  }

  /** A wait that succeeds has seen the done bit, except when its last reading falls
      exactly on the limit: the loop stops there, but only a reading strictly past
      the limit is reported as a timeout. A wait that sees done in time with no
      error code succeeds. */
  lemma WaitSuccess(busy: seq<BusySample>)
    ensures var s := FinalReading(busy);
            Verdict(s) == Ok ==> (Done(s) || s.elapsedMs == TimeoutMs) && s.elapsedMs <= TimeoutMs
    ensures var s := FinalReading(busy);
            Done(s) && ErrorCode(s) == 0 && s.elapsedMs <= TimeoutMs ==> Verdict(s) == Ok
  {
    FinalReadingStops(busy);
  }

  /** The polling loop shared by SetPllClock and the three waits of SetPllFrequency. */
  method AwaitDone(port: Port) returns (status: Status)
    modifies port
    ensures status == WaitOutcome(port.isQPCIe, old(port.busy))
    ensures port.busy == WaitRest(port.isQPCIe, old(port.busy))
    ensures port.regs == old(port.regs) && port.log == old(port.log)
    ensures Setting(port) == old(Setting(port)) && port.rawReads == old(port.rawReads)
  {
    if !port.isQPCIe {
      return Ok;
    }
    ghost var busy0 := port.busy;
    var s := port.ReadBusy();
    while !Done(s) && ErrorCode(s) == 0 && s.elapsedMs < TimeoutMs
      invariant Stops(s) ==> FinalReading(busy0) == s && AfterWait(busy0) == port.busy
      invariant !Stops(s) ==> FinalReading(busy0) == FinalReading(port.busy)
                              && AfterWait(busy0) == AfterWait(port.busy)
      invariant port.regs == old(port.regs) && port.log == old(port.log)
      invariant Setting(port) == old(Setting(port)) && port.rawReads == old(port.rawReads)
      decreases |port.busy| + (if Stops(s) then 0 else 1)
    {
      s := port.ReadBusy();
    }
    return Verdict(s);
  }

  // ---------------------------------------------------------------------------
  // SetPllClock: one phase step of one PLL output

  /** CNT_IND, the counter an output index selects: C0 is counter 2, C1 counter 3. */
  function CounterIndex(clockIndex: nat): (c: bv16)
    requires clockIndex < 0x100
    ensures c < 32
  {
    ((clockIndex + 2) % 32) as bv16
  }

  /** reg23val after SetPllClock: CNT_IND placed at bit 8 after clearing bits 8..11,
      and PHCFG_UPDN set for a non-negative step count. */
  function PhaseWord(r: bv16, cnt: bv16, up: bool): bv16
    requires cnt < 32
  {
    var placed := (r & !(0xF << 8)) | (cnt << 8);
    if up then placed | PhCfgUpDn else placed & !PhCfgUpDn
  }

  /** Bits 8..11 hold the low four bits of CNT_IND. */
  lemma PhaseWordCounter(r: bv16, cnt: bv16, up: bool)
    requires cnt < 32
    ensures (PhaseWord(r, cnt, up) >> 8) & 0xF == cnt & 0xF
  {
  }

  /** The mask clears four bits while CNT_IND has five: bit 12 takes CNT_IND's top
      bit but keeps a 1 it already had. */
  lemma PhaseWordBit12(r: bv16, cnt: bv16, up: bool)
    requires cnt < 32
    ensures PhaseWord(r, cnt, up) & 0x1000 == (r | (cnt << 8)) & 0x1000
  {
  }

  /** PHCFG_UPDN is set exactly for a step count that is not negative. */
  lemma PhaseWordDirection(r: bv16, cnt: bv16, up: bool)
    requires cnt < 32
    ensures (PhaseWord(r, cnt, up) & PhCfgUpDn != 0) == up
  {
  }

  /** Bits 0..7, 14 and 15 (PLL index, the start bits) are as they were. */
  lemma PhaseWordKeeps(r: bv16, cnt: bv16, up: bool)
    requires cnt < 32
    ensures PhaseWord(r, cnt, up) & 0xC0FF == r & 0xC0FF
  {
  }

  /** Repeating a phase-step configuration with the same counter and direction does
      not change the control word again. */
  lemma PhaseWordIdempotent(r: bv16, cnt: bv16, up: bool)
    requires cnt < 32
    ensures PhaseWord(PhaseWord(r, cnt, up), cnt, up) == PhaseWord(r, cnt, up)
  {
  }

  /** abs(nSteps) as the uint32_t pushed for CNT_PHASE. */
  function StepCount(nSteps: int): bv32
    requires -0x8000_0000 < nSteps < 0x8000_0000
  {
    (if nSteps < 0 then -nSteps else nSteps) as bv32
  }

  /** The batch SetPllClock writes first: PLLCFG_START low, the step count, the new
      control word, and the same word with PHCFG_START raised. */
  function PhaseWrites(r: bv16, cnt: bv16, nSteps: int): seq<Write>
    requires cnt < 32 && -0x8000_0000 < nSteps < 0x8000_0000
  {
    var w := PhaseWord(r, cnt, nSteps >= 0) as bv32;
    [Write(PllCtrl, ClearMask(r as bv32, PllCfgStart)), Write(PhaseCount, StepCount(nSteps)),
     Write(PllCtrl, w), Write(PllCtrl, SetMask(w, PhCfgStart))]
  }

  /** The write after a successful wait: PHCFG_START lowered again. */
  function PhaseRelease(w: bv16): seq<Write>
  {
    [Write(PllCtrl, ClearMask(w as bv32, PhCfgStart))]
  }

  /** The shape SetPllClock and the stages of SetPllFrequency share: write a batch
      whose failure is only reported, wait, and on success write a second batch. */
  method WriteWaitWrite(port: Port, first: seq<Write>, second: seq<Write>) returns (status: Status)
    modifies port
    ensures status == WaitOutcome(port.isQPCIe, old(port.busy))
    ensures port.busy == WaitRest(port.isQPCIe, old(port.busy))
    ensures var ws := Logged(port.writeFailing, first) + (if status == Ok then Logged(port.writeFailing, second) else []);
            port.log == old(port.log) + ws && port.regs == Apply(old(port.regs), ws)
    ensures Setting(port) == old(Setting(port)) && port.rawReads == old(port.rawReads)
  {
    var ignored := port.WriteRegisters(first);
    status := AwaitDone(port);
    if status != Ok {
      assert Logged(port.writeFailing, first) + [] == Logged(port.writeFailing, first);
      return;
    }
    ignored := port.WriteRegisters(second);
    ApplyConcat(old(port.regs), Logged(port.writeFailing, first), Logged(port.writeFailing, second));
  }

  /** SetPllClock. reg23val is updated in every outcome; the writes' own failures
      are reported but not returned; a failed wait returns before the release. */
  method SetPllClock(port: Port, clockIndex: nat, nSteps: int, reg23: bv16)
    returns (status: Status, reg23': bv16)
    requires clockIndex < 0x100 && -0x8000_0000 < nSteps < 0x8000_0000
    modifies port
    ensures reg23' == PhaseWord(reg23, CounterIndex(clockIndex), nSteps >= 0)
    ensures status == WaitOutcome(port.isQPCIe, old(port.busy))
    ensures port.busy == WaitRest(port.isQPCIe, old(port.busy))
    ensures var ws := Logged(port.writeFailing, PhaseWrites(reg23, CounterIndex(clockIndex), nSteps))
                      + (if status == Ok then Logged(port.writeFailing, PhaseRelease(reg23')) else []);
            port.log == old(port.log) + ws && port.regs == Apply(old(port.regs), ws)
    ensures Setting(port) == old(Setting(port)) && port.rawReads == old(port.rawReads)
  {
    var cnt := CounterIndex(clockIndex);
    reg23' := PhaseWord(reg23, cnt, nSteps >= 0);
    status := WriteWaitWrite(port, PhaseWrites(reg23, cnt, nSteps), PhaseRelease(reg23'));
  }

  // ---------------------------------------------------------------------------
  // The words of SetPllFrequency

  /** The word written back to 0x0005 before configuring PLL pllIndex: its direct
      clock bit cleared. For an index of 16 or more the mask lies above the 16 bits
      read and the value is written back as it was. */
  function DirectClockOff(v: bv16, pllIndex: bv32): bv32
    requires pllIndex < 32
  {
    ClearMask(v as bv32, (1 as bv32) << pllIndex)
  }

  /** reg23val after SetPllFrequency has read it: PLL index, PLLCFG_START,
      PHCFG_START, PLLRST_START and PHCFG_UPDN cleared, then the index placed at
      bit 3. */
  function PllSelectWord(r: bv16, pll: bv16): bv16
    requires pll < 32
  {
    var cleared := r & !(0x1F << 3) & !(PllCfgStart as bv16) & !(PhCfgStart as bv16)
                   & !(PllRstStart as bv16) & !PhCfgUpDn;
    cleared | (pll << 3)
  }

  /** Bits 3..7 hold the PLL index. */
  lemma PllSelectIndex(r: bv16, pll: bv16)
    requires pll < 32
    ensures (PllSelectWord(r, pll) >> 3) & 0x1F == pll
  {
  }

  /** The three start bits and PHCFG_UPDN are clear. */
  lemma PllSelectClears(r: bv16, pll: bv16)
    requires pll < 32
    ensures PllSelectWord(r, pll) & 0x2007 == 0
  {
  }

  /** Bits 8..12, 14 and 15 are as read. */
  lemma PllSelectKeeps(r: bv16, pll: bv16)
    requires pll < 32
    ensures PllSelectWord(r, pll) & 0xDF00 == r & 0xDF00
  {
  }

  /** A divider d as its register word `high << 8 | low`, with low = d/2 and
      high = low + d%2 (a shift of the high half past bit 31 would be undefined, so
      d stays below 2^24). */
  function DividerWord(d: nat): bv32
    requires d < 0x100_0000
  {
    var x := d as bv32;
    var low := x >> 1;
    var high := low + (x & 1);
    (high << 8) | low
  }

  /** The low byte is d/2 ... */
  lemma DividerLow(d: nat)
    requires d <= 510
    ensures DividerWord(d) & 0xFF == (d as bv32) >> 1
  {
  }

  /** ... and the next byte d/2 + d%2. */
  lemma DividerHigh(d: nat)
    requires d <= 510
    ensures (DividerWord(d) >> 8) & 0xFF == ((d as bv32) >> 1) + ((d as bv32) & 1)
  {
    var x := d as bv32;
    HalvesBelow(x);
    PackHigh((x >> 1) + (x & 1), x >> 1);
  }

  lemma HalvesBelow(x: bv32)
    requires x <= 510
    ensures x >> 1 < 0x100 && (x >> 1) + (x & 1) < 0x100
  {
  }

  lemma PackHigh(h: bv32, l: bv32)
    requires h < 0x100 && l < 0x100
    ensures (((h << 8) | l) >> 8) & 0xFF == h
  {
  }

  lemma HalvesOf(x: bv32)
    ensures (x >> 1) + ((x >> 1) + (x & 1)) == x
  {
  }

  /** For a divider up to 510 both halves fit a byte and add up to the divider. */
  lemma DividerHalvesSum(d: nat)
    requires d <= 510
    ensures (DividerWord(d) & 0xFF) + ((DividerWord(d) >> 8) & 0xFF) == d as bv32
  {
    DividerLow(d);
    DividerHigh(d);
    HalvesOf(d as bv32);
  }

  /** The high half exceeds the low half by the divider's parity. */
  lemma DividerHalvesDiffer(d: nat)
    requires d <= 510
    ensures ((DividerWord(d) >> 8) & 0xFF) - (DividerWord(d) & 0xFF) == (d as bv32) & 1
  {
    DividerLow(d);
    DividerHigh(d);
  }

  /** ... and nothing is written above the two bytes. */
  lemma DividerFits(d: nat)
    requires d <= 510
    ensures DividerWord(d) >> 16 == 0
  {
  }

  /** M_N_odd_byp, written to 0x0026: the odd bits of M (bit 3) and N (bit 1), and
      the bypass bits for M == 1 (bit 2) and N == 1 (bit 0). */
  function MNFlags(m: nat, n: nat): (w: bv32)
    ensures (w & 8 != 0) == (m % 2 == 1)
    ensures (w & 4 != 0) == (m == 1)
    ensures (w & 2 != 0) == (n % 2 == 1)
    ensures (w & 1 != 0) == (n == 1)
    ensures w >> 4 == 0
  {
    (if m % 2 == 1 then 8 else 0) | (if n % 2 == 1 then 2 else 0)
    | (if m == 1 then 4 else 0) | (if n == 1 then 1 else 0)
  }

  /** One output as the flag words see it: bypassed or not, and its divider C. */
  datatype OutputDivider = OutputDivider(bypass: bool, c: nat)

  /** A 16-bit flag word as its bits, bit k at index k. */
  type FlagBits = b: seq<bool> | |b| == 16 witness AllBypassed()

  /** 0x5555: every even (bypass) bit set, every odd bit clear. */
  function AllBypassed(): (b: seq<bool>)
    ensures |b| == 16
  {
    seq(16, k => k % 2 == 0)
  }

  /** The register value of a flag word. */
  function FlagValue(b: seq<bool>): bv32
    decreases |b|
  {
    if b == [] then 0 else (FlagValue(b[1..]) << 1) | (if b[0] then 1 else 0)
  }

  /** Bit k of the register value is flag k. */
  lemma {:induction false} FlagValueBit(b: seq<bool>, k: bv8)
    requires k as int < |b| <= 32
    ensures (FlagValue(b) >> k) & 1 == (if b[k] then 1 else 0)
    decreases |b|
  {
    if k == 0 {
      ShiftedBit(FlagValue(b[1..]), (if b[0] then 1 else 0) as bv32, 0);
    } else {
      PredAsInt(k);
      assert b[1..][k - 1] == b[k];
      FlagValueBit(b[1..], k - 1);
      FlagValueBitStep(b, k, if b[k] then 1 else 0);
    }
  }

  lemma FlagValueBitStep(b: seq<bool>, k: bv8, v: bv32)
    requires 1 <= k < 32 && b != []
    requires (FlagValue(b[1..]) >> (k - 1)) & 1 == v
    ensures (FlagValue(b) >> k) & 1 == v
  {
    ShiftedBit(FlagValue(b[1..]), (if b[0] then 1 else 0) as bv32, k);
  }

  /** Bit k of the shifted word with bit 0 inserted is bit k - 1 of the word. */
  lemma ShiftedBit(x: bv32, bit: bv32, k: bv8)
    requires bit <= 1 && k < 32
    ensures k == 0 ==> ((x << 1) | bit) & 1 == bit
    ensures k > 0 ==> (((x << 1) | bit) >> k) & 1 == (x >> (k - 1)) & 1
  {
  }

  lemma PredAsInt(k: bv8)
    requires 1 <= k
    ensures (k - 1) as int == k as int - 1
  {
  }

  /** Both flag words start at 0x5555. */
  lemma AllBypassedValue()
    ensures FlagValue(AllBypassed()) == 0x5555
  {
    var b := AllBypassed();
    var j, v: bv32 := 16, 0;
    while j > 0
      invariant 0 <= j <= 16 && v == FlagValue(b[j..]) && v == (0x5555 as bv32) >> j
    {
      j := j - 1;
      assert b[j..][1..] == b[j + 1..];
      v := (v << 1) | (if b[j] then 1 else 0);
      assert v == (0x5555 as bv32) >> j by { AlternatingStep(j); }
    }
    assert b[0..] == b;
  }

  lemma AlternatingStep(j: nat)
    requires j < 16
    ensures (((0x5555 as bv32) >> (j + 1)) << 1) | (if j % 2 == 0 then 1 else 0) == (0x5555 as bv32) >> j
  {
  }

  /** An output is enabled (its bypass bit cleared) unless it is bypassed or divides
      by one. */
  predicate Enabled(o: OutputDivider)
  {
    !o.bypass && o.c != 1
  }

  /** The loop body for output j (0..7) of its group: the even bit is cleared for an
      enabled output, the odd bit set for an odd divider; a bit that is already set
      or clear stays so. */
  function FlagStep(w: FlagBits, j: nat, o: OutputDivider): (r: FlagBits)
    requires j < 8
    ensures r[2 * j] == (w[2 * j] && !Enabled(o))
    ensures r[2 * j + 1] == (w[2 * j + 1] || o.c % 2 == 1)
    ensures forall k | 0 <= k < 16 && k != 2 * j && k != 2 * j + 1 :: r[k] == w[k]
  {
    var w1 := if Enabled(o) then w[2 * j := false] else w;
    if o.c % 2 == 1 then w1[2 * j + 1 := true] else w1
  }

  /** c7_c0_odds_byps and c15_c8_odds_byps after the loop over the outputs, both
      starting at 0x5555. Outputs 0..7 go to the first word, 8..15 to the second; for
      an output past 15 both shifts leave the 16 bits of the word, which keeps its
      value. */
  function OutputFlags(outs: seq<OutputDivider>): (FlagBits, FlagBits)
    decreases |outs|
  {
    if outs == [] then (AllBypassed(), AllBypassed())
    else
      var l := |outs| - 1;
      var (lo, hi) := OutputFlags(outs[..l]);
      if l < 8 then (FlagStep(lo, l, outs[l]), hi)
      else if l < 16 then (lo, FlagStep(hi, l - 8, outs[l]))
      else (lo, hi)
  }

  /** The flag word that holds output i's two bits. */
  function FlagWordOf(outs: seq<OutputDivider>, i: nat): FlagBits
  {
    if i < 8 then OutputFlags(outs).0 else OutputFlags(outs).1
  }

  /** Output j of the first group, as c7_c0_odds_byps records it. */
  lemma {:induction false} LowFlagBits(outs: seq<OutputDivider>, j: nat)
    requires j < 8
    ensures var w := OutputFlags(outs).0;
            j < |outs| ==> (w[2 * j] <==> !Enabled(outs[j])) && (w[2 * j + 1] <==> outs[j].c % 2 == 1)
    ensures var w := OutputFlags(outs).0;
            j >= |outs| ==> w[2 * j] && !w[2 * j + 1]
    decreases |outs|
  {
    if outs != [] {
      var l := |outs| - 1;
      LowFlagBits(outs[..l], j);
      if j < l {
        assert outs[..l][j] == outs[j];
      }
    }
  }

  /** Output 8 + j of the second group, as c15_c8_odds_byps records it. */
  lemma {:induction false} HighFlagBits(outs: seq<OutputDivider>, j: nat)
    requires j < 8
    ensures var w := OutputFlags(outs).1;
            8 + j < |outs| ==> (w[2 * j] <==> !Enabled(outs[8 + j])) && (w[2 * j + 1] <==> outs[8 + j].c % 2 == 1)
    ensures var w := OutputFlags(outs).1;
            8 + j >= |outs| ==> w[2 * j] && !w[2 * j + 1]
    decreases |outs|
  {
    if outs != [] {
      var l := |outs| - 1;
      HighFlagBits(outs[..l], j);
      if 8 + j < l {
        assert outs[..l][8 + j] == outs[8 + j];
      }
    }
  }

  /** For each of the first sixteen outputs the flag words say: bypass bit set exactly
      when the output is bypassed or divides by one, odd bit set exactly when its
      divider is odd; an output past the configured ones stays bypassed and even. */
  lemma OutputFlagBits(outs: seq<OutputDivider>, i: nat)
    requires i < 16
    ensures var w, j := FlagWordOf(outs, i), i % 8;
            i < |outs| ==> (w[2 * j] <==> !Enabled(outs[i])) && (w[2 * j + 1] <==> outs[i].c % 2 == 1)
    ensures var w, j := FlagWordOf(outs, i), i % 8;
            i >= |outs| ==> w[2 * j] && !w[2 * j + 1]
  {
    if i < 8 {
      LowFlagBits(outs, i);
    } else {
      HighFlagBits(outs, i - 8);
    }
  }

  /** The same for the register values written to 0x0027 and 0x0028: with k = 2j,
      j = i % 8, bit k of output i's word is its bypass bit and bit k+1 its odd bit. */
  lemma OutputFlagRegisterBits(outs: seq<OutputDivider>, i: nat, k: bv8)
    requires i < 16 && k as int == 2 * (i % 8)
    ensures var v := FlagValue(FlagWordOf(outs, i));
            i < |outs| ==> ((v >> k) & 1 == 1 <==> !Enabled(outs[i]))
                           && ((v >> (k + 1)) & 1 == 1 <==> outs[i].c % 2 == 1)
    ensures var v := FlagValue(FlagWordOf(outs, i));
            i >= |outs| ==> (v >> k) & 1 == 1 && (v >> (k + 1)) & 1 == 0
  {
    var w := FlagWordOf(outs, i);
    SuccAsInt(k);
    OutputFlagBits(outs, i);
    FlagValueBit(w, k);
    FlagValueBit(w, k + 1);
  }

  lemma SuccAsInt(k: bv8)
    requires k < 0xFF
    ensures (k + 1) as int == k as int + 1
  {
  }
}
