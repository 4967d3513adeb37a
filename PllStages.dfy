/** The stages of SetPllFrequency (FPGA_common.cpp) up to the final wait: the range
    test, disabling the direct clock, selecting and resetting the PLL, the VCO range
    test, and the configuration batch with the output dividers. The M/N search that
    chooses M and N is not modelled: M and N are inputs. */
module PllStages {
  import opened Base
  import opened Arith
  import opened RegisterPort
  import opened PllClock
  import opened FpgaStreaming
  import opened FpgaPll

  const PllLowerLimitHz: nat := 5_000_000
  const VcoMinHz: nat := 600_000_000
  const VcoMaxHz: nat := 1_050_000_000

  const DirectClockCtrl: nat := 0x0005
  const PllInfo: nat := 0x0003

  predicate AllConfigured(cs: seq<Clock>)
  {
    forall i :: 0 <= i < |cs| ==> Configured(cs[i])
  }

  predicate AllRequested(cs: seq<Clock>)
  {
    forall i :: 0 <= i < |cs| ==> Requested(cs[i])
  }

  function Out(c: Clock): nat
    requires Configured(c)
  {
    c.outFrequency.value
  }

  // ---------------------------------------------------------------------------
  // Range tests

  /** The input and every output that is not bypassed are at least 5 MHz. Past
      this test every output frequency is non-zero, which the later stages divide
      by. */
  predicate InputsInRange(input: nat, cs: seq<Clock>)
    requires AllRequested(cs)
    ensures InputsInRange(input, cs) ==> AllConfigured(cs)
  {
    input >= PllLowerLimitHz
    && forall i :: 0 <= i < |cs| ==> cs[i].bypass || cs[i].outFrequency.value >= PllLowerLimitHz
  }

  /** The range test, run before any register access. */
  method CheckRanges(input: nat, clocks: array<Clock>) returns (status: Status)
    requires AllRequested(clocks[..])
    ensures status == Ok <==> InputsInRange(input, clocks[..])
    ensures status == Ok || status == Err(ERANGE)
    ensures (exists i :: 0 <= i < clocks.Length && !clocks[i].bypass && clocks[i].outFrequency.value == 0) ==>
              status == Err(ERANGE)
  {
    if input < PllLowerLimitHz {
      return Err(ERANGE);
    }
    var i := 0;
    while i < clocks.Length
      invariant 0 <= i <= clocks.Length
      invariant forall k :: 0 <= k < i ==> clocks[k].bypass || clocks[k].outFrequency.value >= PllLowerLimitHz
    {
      if clocks[i].outFrequency.value < PllLowerLimitHz && !clocks[i].bypass {
        return Err(ERANGE);
      }
      i := i + 1;
    }
    return Ok;
  }

  /** The VCO test as intended: Fvco = inputFreq*M/N within [600 MHz, 1050 MHz],
      which needs N > 0. */
  predicate VcoInRange(input: nat, m: nat, n: nat)
  {
    n > 0 && VcoMinHz * n <= input * m <= VcoMaxHz * n
  }

  /** The VCO test as written, in IEEE double arithmetic. With N == 0 the quotient is
      +infinity, which fails the upper limit, unless inputFreq*M is zero as well:
      0/0 is NaN, and both comparisons with NaN are false, so the test passes. */
  predicate VcoPassesAsWritten(input: nat, m: nat, n: nat)
  {
    if n == 0 then input * m == 0 else VcoMinHz * n <= input * m <= VcoMaxHz * n
  }

  /** The two tests agree except on M == N == 0, which the written test lets
      through. */
  lemma VcoTestsAgree(input: nat, m: nat, n: nat)
    ensures VcoInRange(input, m, n) ==> VcoPassesAsWritten(input, m, n)
    ensures VcoPassesAsWritten(input, m, n) && !VcoInRange(input, m, n) ==> n == 0 && input * m == 0
  {
  }

  lemma VcoNanPasses(input: nat)
    ensures VcoPassesAsWritten(input, 0, 0) && !VcoInRange(input, 0, 0)
  {
  }

  // ---------------------------------------------------------------------------
  // Output dividers

  /** C = int(Fvco/outFrequency + 0.5) with Fvco = inputFreq*M/N, in exact
      arithmetic: the nearest integer, halves rounded up. */
  function CDivider(input: nat, m: nat, n: nat, out: nat): nat
    requires n > 0 && out > 0
  {
    MulAtLeast(2 * n, out);
    Quot(2 * input * m + n * out, 2 * n * out)
  }

  /** C is the divider that brings the VCO nearest to the output frequency:
      C*out*N is within half of out*N of inputFreq*M. */
  lemma CDividerNearest(input: nat, m: nat, n: nat, out: nat)
    requires n > 0 && out > 0
    ensures var c, d := CDivider(input, m, n, out), 2 * n * out;
            c * d <= 2 * input * m + n * out < c * d + d
  {
    var p, d := 2 * input * m + n * out, 2 * n * out;
    MulAtLeast(2 * n, out);
    assert p == (p / d) * d + p % d;
  }

  /** rd_actualFrequency = (inputFreq*M/N)/(chigh + clow), where chigh + clow == C;
      dividing by a zero C gives infinity. */
  function ActualFrequency(input: nat, m: nat, n: nat, c: nat): Frequency
    requires n > 0
  {
    if c == 0 then Infinite else Hz((input * m) as real / ((n * c) as real))
  }

  function Dividers(input: nat, m: nat, n: nat, cs: seq<Clock>): (ds: seq<OutputDivider>)
    requires n > 0 && AllConfigured(cs)
    ensures |ds| == |cs|
    ensures forall i :: 0 <= i < |cs| ==> ds[i] == OutputDivider(cs[i].bypass, CDivider(input, m, n, Out(cs[i])))
  {
    seq(|cs|, i requires 0 <= i < |cs| => OutputDivider(cs[i].bypass, CDivider(input, m, n, Out(cs[i]))))
  }

  predicate DividersFit(ds: seq<OutputDivider>)
  {
    forall i :: 0 <= i < |ds| ==> ds[i].c < 0x100_0000
  }

  /** One register per output, 0x002E + i, holding the divider word. */
  function DividerWrites(ds: seq<OutputDivider>): (ws: seq<Write>)
    requires DividersFit(ds)
    ensures |ws| == |ds|
  {
    seq(|ds|, i requires 0 <= i < |ds| => Write(0x2E + i, DividerWord(ds[i].c)))
  }

  /** The configuration batch: PLLRST_START low, M_N_odd_byp, the N and M divider
      words, one divider word per output, the two flag words, and PLLCFG_START high
      to load it all. */
  function CommitWrites(r: bv16, m: nat, n: nat, ds: seq<OutputDivider>): seq<Write>
    requires m < 0x100_0000 && n < 0x100_0000 && DividersFit(ds)
  {
    var (lo, hi) := OutputFlags(ds);
    [Write(PllCtrl, ClearMask(r as bv32, PllRstStart)), Write(0x26, MNFlags(m, n)),
     Write(0x2A, DividerWord(n)), Write(0x2B, DividerWord(m))]
    + DividerWrites(ds)
    + [Write(0x27, FlagValue(lo)), Write(0x28, FlagValue(hi)), Write(PllCtrl, SetMask(r as bv32, PllCfgStart))]
  }

  // ---------------------------------------------------------------------------
  // The stage methods

  /** The write that disables the direct clock of PLL pllIndex: 0x0005 as read, or
      zero when the read fails, with the PLL's bit cleared; it reaches the register
      unless writes to 0x0005 fail. */
  function DirectClockWrites(readFailing: set<nat>, writeFailing: set<nat>, v0005: bv32, pllIndex: nat)
    : seq<Write>
    requires pllIndex < 32
  {
    var v := if DirectClockCtrl in readFailing then 0 else Low16(v0005);
    Logged(writeFailing, [Write(DirectClockCtrl, DirectClockOff(v, pllIndex as bv32))])
  }

  /** Read 0x0005 (zero if the read fails) and write it back with PLL pllIndex's
      direct clock bit cleared; neither outcome is checked. */
  method DisableDirectClock(port: Port, pllIndex: nat)
    requires pllIndex < 32
    modifies port
    ensures var ws := DirectClockWrites(port.readFailing, port.writeFailing,
                                        old(port.Value(DirectClockCtrl)), pllIndex);
            port.log == old(port.log) + ws && port.regs == Apply(old(port.regs), ws)
    ensures DirectClockCtrl in port.readFailing && DirectClockCtrl !in port.writeFailing ==>
              port.log == old(port.log) + [Write(DirectClockCtrl, DirectClockOff(0, pllIndex as bv32))]
    ensures Env(port) == old(Env(port))
  {
    var st, v := port.ReadRegister(DirectClockCtrl);
    var ignored := port.WriteRegister(DirectClockCtrl, DirectClockOff(v, pllIndex as bv32));
  }

  /** Read 0x0003 as reg23val and select the PLL in it; a failed read is ENODEV. */
  method SelectPll(port: Port, pllIndex: nat) returns (status: Status, r: bv16)
    requires pllIndex < 32
    ensures PllInfo in port.readFailing ==> status == Err(ENODEV)
    ensures PllInfo !in port.readFailing ==>
              status == Ok && r == PllSelectWord(Low16(port.Value(PllInfo)), pllIndex as bv16)
  {
    var st, v := port.ReadRegister(PllInfo);
    if st != Ok {
      return Err(ENODEV), 0;
    }
    return Ok, PllSelectWord(v, pllIndex as bv16);
  }

  /** The reset pulse: the selected word, then the same with PLLRST_START high. */
  function PllResetWrites(r: bv16): seq<Write>
  {
    [Write(PllCtrl, r as bv32), Write(PllCtrl, SetMask(r as bv32, PllRstStart))]
  }

  /** Write the reset pulse (its failure is not checked) and wait for it. */
  method ResetPll(port: Port, r: bv16) returns (status: Status)
    modifies port
    ensures status == WaitOutcome(port.isQPCIe, old(port.busy))
    ensures port.busy == WaitRest(port.isQPCIe, old(port.busy))
    ensures port.log == old(port.log) + Logged(port.writeFailing, PllResetWrites(r))
    ensures port.regs == Apply(old(port.regs), Logged(port.writeFailing, PllResetWrites(r)))
    ensures Setting(port) == old(Setting(port)) && port.rawReads == old(port.rawReads)
  {
    var ignored := port.WriteRegisters(PllResetWrites(r));
    status := AwaitDone(port);
  }

  /** What the output loop has produced after a prefix of the outputs: the divider
      writes and the two flag words. */
  function OutputsOf(ds: seq<OutputDivider>): (seq<Write>, FlagBits, FlagBits)
    requires DividersFit(ds)
  {
    (DividerWrites(ds), OutputFlags(ds).0, OutputFlags(ds).1)
  }

  /** One pass of the output loop, for output i. */
  function AddOutput(acc: (seq<Write>, FlagBits, FlagBits), i: nat, o: OutputDivider): (seq<Write>, FlagBits, FlagBits)
    requires o.c < 0x100_0000
  {
    (acc.0 + [Write(0x2E + i, DividerWord(o.c))],
     if i < 8 then FlagStep(acc.1, i, o) else acc.1,
     if 8 <= i < 16 then FlagStep(acc.2, i - 8, o) else acc.2)
  }

  lemma DividerWritesSnoc(ds: seq<OutputDivider>, i: nat)
    requires i < |ds| && DividersFit(ds)
    ensures DividerWrites(ds[..i + 1]) == DividerWrites(ds[..i]) + [Write(0x2E + i, DividerWord(ds[i].c))]
  {
    var a, b := DividerWrites(ds[..i + 1]), DividerWrites(ds[..i]) + [Write(0x2E + i, DividerWord(ds[i].c))];
    assert |a| == |b|;
    forall k | 0 <= k < |a|
      ensures a[k] == b[k]
    {
    }
  }

  lemma OutputFlagsSnoc(ds: seq<OutputDivider>, i: nat)
    requires i < |ds|
    ensures var (lo, hi) := OutputFlags(ds[..i]);
            OutputFlags(ds[..i + 1]) ==
              if i < 8 then (FlagStep(lo, i, ds[i]), hi)
              else if i < 16 then (lo, FlagStep(hi, i - 8, ds[i]))
              else (lo, hi)
  {
    assert ds[..i + 1][..i] == ds[..i];
    assert ds[..i + 1][i] == ds[i];
  }

  lemma OutputsOfSnoc(ds: seq<OutputDivider>, i: nat)
    requires i < |ds| && DividersFit(ds)
    ensures OutputsOf(ds[..i + 1]) == AddOutput(OutputsOf(ds[..i]), i, ds[i])
  {
    DividerWritesSnoc(ds, i);
    OutputFlagsSnoc(ds, i);
  }

  /** The output loop: every output's divider word and flag bits, and
      rd_actualFrequency of every clock. */
  method ProgramOutputs(input: nat, m: nat, n: nat, clocks: array<Clock>)
    returns (outputs: seq<Write>, lo: FlagBits, hi: FlagBits)
    requires n > 0 && AllConfigured(clocks[..])
    requires DividersFit(Dividers(input, m, n, clocks[..]))
    modifies clocks
    ensures (outputs, lo, hi) == OutputsOf(old(Dividers(input, m, n, clocks[..])))
    ensures var ds := old(Dividers(input, m, n, clocks[..]));
            forall i :: 0 <= i < clocks.Length ==>
              clocks[i] == old(clocks[i]).(actualFrequency := Some(ActualFrequency(input, m, n, ds[i].c)))
  {
    ghost var ds := Dividers(input, m, n, clocks[..]);
    var acc := ([], AllBypassed(), AllBypassed());
    var i := 0;
    while i < clocks.Length
      invariant 0 <= i <= clocks.Length
      invariant acc == OutputsOf(ds[..i])
      invariant forall k :: 0 <= k < i ==>
                  clocks[k] == old(clocks[k]).(actualFrequency := Some(ActualFrequency(input, m, n, ds[k].c)))
      invariant forall k :: i <= k < clocks.Length ==> clocks[k] == old(clocks[k])
    {
      var c := CDivider(input, m, n, Out(clocks[i]));
      var o := OutputDivider(clocks[i].bypass, c);
      assert o == ds[i];
      OutputsOfSnoc(ds, i);
      acc := AddOutput(acc, i, o);
      clocks[i] := clocks[i].(actualFrequency := Some(ActualFrequency(input, m, n, c)));
      i := i + 1;
    }
    assert ds[..i] == ds;
    outputs, lo, hi := acc.0, acc.1, acc.2;
  }

  /** The configuration batch, written as one batch (its failure is not checked),
      then the wait for it. */
  method CommitConfiguration(port: Port, r: bv16, input: nat, m: nat, n: nat, clocks: array<Clock>)
    returns (status: Status)
    requires 0 < n < 0x100_0000 && m < 0x100_0000 && AllConfigured(clocks[..])
    requires DividersFit(Dividers(input, m, n, clocks[..]))
    modifies port, clocks
    ensures var ds := old(Dividers(input, m, n, clocks[..]));
            forall i :: 0 <= i < clocks.Length ==>
              clocks[i] == old(clocks[i]).(actualFrequency := Some(ActualFrequency(input, m, n, ds[i].c)))
    ensures var ws := Logged(port.writeFailing, CommitWrites(r, m, n, old(Dividers(input, m, n, clocks[..]))));
            port.log == old(port.log) + ws && port.regs == Apply(old(port.regs), ws)
    ensures status == WaitOutcome(port.isQPCIe, old(port.busy))
    ensures port.busy == WaitRest(port.isQPCIe, old(port.busy))
    ensures Setting(port) == old(Setting(port)) && port.rawReads == old(port.rawReads)
  {
    ghost var ds := Dividers(input, m, n, clocks[..]);
    var outputs, lo, hi := ProgramOutputs(input, m, n, clocks);
    var ws := [Write(PllCtrl, ClearMask(r as bv32, PllRstStart)), Write(0x26, MNFlags(m, n)),
               Write(0x2A, DividerWord(n)), Write(0x2B, DividerWord(m))]
              + outputs
              + [Write(0x27, FlagValue(lo)), Write(0x28, FlagValue(hi)), Write(PllCtrl, SetMask(r as bv32, PllCfgStart))];
    assert ws == CommitWrites(r, m, n, ds);
    var ignored := port.WriteRegisters(ws);
    status := AwaitDone(port);
  }
}
