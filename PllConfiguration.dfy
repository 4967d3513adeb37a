/** SetPllFrequency and SetDirectClocking (FPGA_common.cpp) as a whole: the stages
    in their order, each stage's early return, and the phase stage that ends the
    routine or asks for it to be run again. */
module PllConfiguration {
  import opened Base
  import opened RegisterPort
  import opened FpgaStreaming
  import opened PllClock
  import opened FpgaPll
  import opened PllStages
  import opened VcoSearch
  import opened PhaseCalibration

  /** How SetPllFrequency ends: with a status, or by calling itself again after a
      phase search, with the updated clocks. */
  datatype PllOutcome = Finished(status: Status) | Repeat

  /** int(x) of a double: truncation toward zero. */
  function TruncToInt(x: real): (r: int)
    ensures x >= 0.0 ==> 0 <= r && r as real <= x < r as real + 1.0
    ensures x < 0.0 ==> r <= 0 && r as real - 1.0 < x <= r as real
  {
    if x >= 0.0 then x.Floor else -((-x).Floor)
  }

  /** nSteps = int(0.49 + phaseShift_deg/Fstep_deg) with Fstep_deg = 45/C degrees;
      with C == 0 the step is infinite and nSteps is zero, which the formula gives
      as well. */
  function ShiftSteps(shiftDeg: real, c: nat): int
  {
    TruncToInt(0.49 + shiftDeg * c as real / 45.0)
  }

  /** Every output without a phase search asks for a step count that fits an int. */
  predicate PhaseStepsFit(input: nat, m: nat, n: nat, cs: seq<Clock>)
    requires n > 0 && AllConfigured(cs)
  {
    forall i | 0 <= i < |cs| && !cs[i].findPhase ::
      -0x8000_0000 < ShiftSteps(cs[i].phaseShiftDeg, CDivider(input, m, n, Out(cs[i]))) < 0x8000_0000
  }

  /** Which clocks ask for a phase search. */
  function Searches(cs: seq<Clock>): (ss: seq<bool>)
    ensures |ss| == |cs| && forall i | 0 <= i < |cs| :: ss[i] == cs[i].findPhase
  {
    seq(|cs|, i requires 0 <= i < |cs| => cs[i].findPhase)
  }

  /** A clock after its phase search: findPhase cleared, and the phase shift moved to
      the middle of the passing window when there was one. */
  function SearchedClock(cl: Clock, captures: seq<seq<byte>>, c: nat): Clock
  {
    var (lo, hi) := WindowDegrees(captures, c);
    cl.(findPhase := false, phaseShiftDeg := if lo > -1.0 then (lo + hi) / 2.0 else cl.phaseShiftDeg)
  }

  /** A searched clock will not be searched again, keeps everything but its phase,
      and gets a phase inside the passing window of the turn, or keeps its own. */
  lemma SearchedClockPhase(cl: Clock, captures: seq<seq<byte>>, c: nat)
    ensures var r := SearchedClock(cl, captures, c);
            !r.findPhase && r.outFrequency == cl.outFrequency && r.index == cl.index && r.bypass == cl.bypass
            && r.actualFrequency == cl.actualFrequency
    ensures var (lo, hi) := WindowDegrees(captures, c);
            var r := SearchedClock(cl, captures, c);
            if lo == -1.0 then r.phaseShiftDeg == cl.phaseShiftDeg
            else 0.0 < lo <= r.phaseShiftDeg <= hi <= 360.0
  {
    WindowInTurn(captures, c);
  }

  /** The phase search of one clock with divider C, and the clock it leaves. */
  method SearchPhase(port: Port, cl: Clock, c: nat, reg23: bv16) returns (cl': Clock)
    requires c < 0x100_0000
    modifies port
    ensures cl' == SearchedClock(cl, old(port.rawReads), c)
    ensures CalibrationWritesSince(old(port.log), old(port.regs), port.log, port.regs)
    ensures Setting(port) == old(Setting(port))
  {
    var lo, hi, reg' := Calibrate(port, cl.index, c, reg23);
    cl' := cl.(findPhase := false, phaseShiftDeg := if lo > -1.0 then (lo + hi) / 2.0 else cl.phaseShiftDeg);
  }

  /** The phase stage: outputs without a phase search get their phase steps; the
      first output with one is searched, and the routine is to run again. That
      output is FirstPass(Searches(cs)): the first index whose flag is set, found
      by the same function that finds the first passing capture of a search. */
  method PhaseStage(port: Port, r: bv16, input: nat, m: nat, n: nat, clocks: array<Clock>)
    returns (outcome: PllOutcome)
    requires n > 0 && AllConfigured(clocks[..])
    requires DividersFit(Dividers(input, m, n, clocks[..]))
    requires PhaseStepsFit(input, m, n, clocks[..])
    modifies port, clocks
    ensures var j := FirstPass(Searches(old(clocks[..])));
            j.None? ==> outcome == Finished(Ok) && clocks[..] == old(clocks[..]) && port.rawReads == old(port.rawReads)
    ensures var j := FirstPass(Searches(old(clocks[..])));
            j.Some? ==> (outcome == Repeat && j.value < clocks.Length &&
                         clocks[..] == old(clocks[..])[j.value := SearchedClock(old(clocks[j.value]), old(port.rawReads),
                                                                             old(Dividers(input, m, n, clocks[..]))[j.value].c)])
    ensures forall i | 0 <= i < clocks.Length :: clocks[i].actualFrequency == old(clocks[i].actualFrequency)
    ensures CalibrationWritesSince(old(port.log), old(port.regs), port.log, port.regs)
    ensures Setting(port) == old(Setting(port))
  {
    ghost var cs := clocks[..];
    ghost var ds := Dividers(input, m, n, cs);
    ghost var ss := Searches(cs);
    CalibrationWritesSinceNone(port.log, port.regs);
    var reg := r;
    var i := 0;
    while i < clocks.Length
      invariant 0 <= i <= clocks.Length
      invariant clocks[..] == cs
      invariant FirstPass(ss[..i]).None?
      invariant port.rawReads == old(port.rawReads)
      invariant CalibrationWritesSince(old(port.log), old(port.regs), port.log, port.regs)
      invariant Setting(port) == old(Setting(port))
    {
      var c := CDivider(input, m, n, Out(clocks[i]));
      assert c == ds[i].c;
      WindowStep(ss, i, 0);
      ghost var log1, regs1 := port.log, port.regs;
      if !clocks[i].findPhase {
        reg := StepPhase(port, clocks[i].index, ShiftSteps(clocks[i].phaseShiftDeg, c), reg);
        CalibrationWritesSinceTrans(old(port.log), old(port.regs), log1, regs1, port.log, port.regs);
      } else {
        var searched := SearchPhase(port, clocks[i], c, reg);
        SearchedClockPhase(clocks[i], old(port.rawReads), c);
        CalibrationWritesSinceTrans(old(port.log), old(port.regs), log1, regs1, port.log, port.regs);
        clocks[i] := searched;
        FirstPassPrefix(ss, i + 1);
        return Repeat;
      }
      i := i + 1;
    }
    assert ss[..i] == ss;
    return Finished(Ok);
  }

  // ---------------------------------------------------------------------------
  // The routine

  /** The PLL's M and N: those of the search, or zero for both when there is no
      VCO candidate, since the search then has nothing to choose from. */
  function ChosenMN(cs: seq<Clock>, m: nat, n: nat): (nat, nat)
    requires AllConfigured(cs)
  {
    if AllCandidates(cs) == {} then (0, 0) else (m, n)
  }

  /** With no candidate the corrected VCO test refuses, while the test as written
      lets the resulting 0/0 through. */
  lemma NoCandidates(cs: seq<Clock>, input: nat, m: nat, n: nat)
    requires AllConfigured(cs) && AllCandidates(cs) == {}
    ensures var (m', n') := ChosenMN(cs, m, n);
            !VcoInRange(input, m', n') && VcoPassesAsWritten(input, m', n')
  {
  }

  /** The stages up to the reset: disable the direct clock, select the PLL in
      0x0003's value, write the reset pulse and wait for it. */
  method ResetStage(port: Port, pllIndex: nat) returns (status: Status, r: bv16)
    requires pllIndex < 32
    modifies port
    ensures var direct := DirectClockWrites(port.readFailing, port.writeFailing, old(port.Value(DirectClockCtrl)), pllIndex);
            PllInfo in port.readFailing ==>
              status == Err(ENODEV) && port.log == old(port.log) + direct && port.busy == old(port.busy)
              && port.regs == Apply(old(port.regs), direct)
    ensures var direct := DirectClockWrites(port.readFailing, port.writeFailing, old(port.Value(DirectClockCtrl)), pllIndex);
            PllInfo !in port.readFailing ==>
              r == PllSelectWord(Low16(old(port.Value(PllInfo))), pllIndex as bv16)
              && status == WaitOutcome(port.isQPCIe, old(port.busy))
              && port.busy == WaitRest(port.isQPCIe, old(port.busy))
              && port.log == old(port.log) + direct + Logged(port.writeFailing, PllResetWrites(r))
              && port.regs == Apply(old(port.regs), direct + Logged(port.writeFailing, PllResetWrites(r)))
    ensures Setting(port) == old(Setting(port)) && port.rawReads == old(port.rawReads)
  {
    ghost var direct := DirectClockWrites(port.readFailing, port.writeFailing, port.Value(DirectClockCtrl), pllIndex);
    DisableDirectClock(port, pllIndex);
    assert port.Value(PllInfo) == old(port.Value(PllInfo));
    status, r := SelectPll(port, pllIndex);
    if status != Ok {
      return;
    }
    ghost var regs1 := port.regs;
    status := ResetPll(port, r);
    ApplyConcat(old(port.regs), direct, Logged(port.writeFailing, PllResetWrites(r)));
  }

  /** What the stages after a passed VCO test do, from log0 and regs0 with the busy
      readings busy0: the configuration batch is logged first. When its wait fails
      nothing follows and the wait's verdict is returned; otherwise the phase stage
      writes its registers and the routine ends with Ok when no output asks for a
      phase search, or is to run again when one does. */
  predicate CommitEffect(log0: seq<Write>, regs0: map<nat, bv32>, busy0: seq<BusySample>, isQPCIe: bool,
                         writeFailing: set<nat>, r: bv16, input: nat, m: nat, n: nat, cs: seq<Clock>,
                         outcome: PllOutcome, log: seq<Write>, regs: map<nat, bv32>)
    requires AllConfigured(cs) && m < 0x100_0000 && 0 < n < 0x100_0000
    requires DividersFit(Dividers(input, m, n, cs))
  {
    var ws := Logged(writeFailing, CommitWrites(r, m, n, Dividers(input, m, n, cs)));
    var verdict := WaitOutcome(isQPCIe, busy0);
    && CalibrationWritesSince(log0 + ws, Apply(regs0, ws), log, regs)
    && (verdict != Ok ==> outcome == Finished(verdict) && log == log0 + ws && regs == Apply(regs0, ws))
    && (verdict == Ok ==> outcome == (if FirstPass(Searches(cs)).None? then Finished(Ok) else Repeat))
  }

  /** The stages after the reset as a whole: ERANGE with nothing written when the
      VCO of the chosen M and N is out of range, and CommitEffect otherwise. */
  predicate ConfigureEffect(log0: seq<Write>, regs0: map<nat, bv32>, busy0: seq<BusySample>, isQPCIe: bool,
                            writeFailing: set<nat>, r: bv16, input: nat, m: nat, n: nat, cs: seq<Clock>,
                            outcome: PllOutcome, log: seq<Write>, regs: map<nat, bv32>)
    requires AllConfigured(cs) && m < 0x100_0000 && n < 0x100_0000
    requires VcoInRange(input, m, n) ==> DividersFit(Dividers(input, m, n, cs))
  {
    var (m', n') := ChosenMN(cs, m, n);
    && (!VcoInRange(input, m', n') ==> outcome == Finished(Err(ERANGE)) && log == log0 && regs == regs0)
    && (VcoInRange(input, m', n') ==>
          CommitEffect(log0, regs0, busy0, isQPCIe, writeFailing, r, input, m', n', cs, outcome, log, regs))
  }

  /** The clocks as the output loop leaves them: each one's rd_actualFrequency set
      from its divider C, every other field kept. */
  function WithActual(input: nat, m: nat, n: nat, cs: seq<Clock>): (r: seq<Clock>)
    requires n > 0 && AllConfigured(cs)
    ensures |r| == |cs|
  {
    var ds := Dividers(input, m, n, cs);
    seq(|cs|, i requires 0 <= i < |cs| => cs[i].(actualFrequency := Some(ActualFrequency(input, m, n, ds[i].c))))
  }

  /** The clocks cs' that the configuration batch and the phase stage leave from
      cs, with the busy readings busy0 and the raw captures rawReads0 still to come.
      Every actual frequency is set before the batch is written, so also when its
      wait fails; after a passed wait the first clock that asks for a phase search
      is searched, and the others are kept. */
  predicate CommitClocks(busy0: seq<BusySample>, isQPCIe: bool, rawReads0: seq<seq<byte>>,
                         input: nat, m: nat, n: nat, cs: seq<Clock>, cs': seq<Clock>)
    requires AllConfigured(cs) && n > 0
  {
    var a := WithActual(input, m, n, cs);
    var j := FirstPass(Searches(cs));
    cs' == if WaitOutcome(isQPCIe, busy0) != Ok || j.None? then a
           else a[j.value := SearchedClock(a[j.value], rawReads0, Dividers(input, m, n, cs)[j.value].c)]
  }

  /** The clocks after the stages that follow the reset: unchanged when the VCO
      test fails, and as CommitClocks says otherwise. */
  predicate ConfigureClocks(busy0: seq<BusySample>, isQPCIe: bool, rawReads0: seq<seq<byte>>,
                            input: nat, m: nat, n: nat, cs: seq<Clock>, cs': seq<Clock>)
    requires AllConfigured(cs) && m < 0x100_0000 && n < 0x100_0000
  {
    var (m', n') := ChosenMN(cs, m, n);
    && (!VcoInRange(input, m', n') ==> cs' == cs)
    && (VcoInRange(input, m', n') ==> CommitClocks(busy0, isQPCIe, rawReads0, input, m', n', cs, cs'))
  }

  /** The configuration batch and its wait, then the phase stage, for an M and N
      that passed the VCO test. */
  method CommitStage(port: Port, r: bv16, input: nat, m: nat, n: nat, clocks: array<Clock>)
    returns (outcome: PllOutcome)
    requires AllConfigured(clocks[..]) && m < 0x100_0000 && 0 < n < 0x100_0000
    requires DividersFit(Dividers(input, m, n, clocks[..])) && PhaseStepsFit(input, m, n, clocks[..])
    modifies port, clocks
    ensures CommitEffect(old(port.log), old(port.regs), old(port.busy), port.isQPCIe, port.writeFailing, r,
                         input, m, n, old(clocks[..]), outcome, port.log, port.regs)
    ensures CommitClocks(old(port.busy), port.isQPCIe, old(port.rawReads), input, m, n, old(clocks[..]), clocks[..])
    ensures (outcome == Finished(Ok) || outcome == Repeat) ==>
              forall i | 0 <= i < clocks.Length ::
                clocks[i].actualFrequency == Some(ActualFrequency(input, m, n, old(Dividers(input, m, n, clocks[..]))[i].c))
    ensures Setting(port) == old(Setting(port))
  {
    ghost var cs := clocks[..];
    ghost var ds := Dividers(input, m, n, clocks[..]);
    ghost var searches := Searches(clocks[..]);
    var status := CommitConfiguration(port, r, input, m, n, clocks);
    assert clocks[..] == WithActual(input, m, n, cs);
    if status != Ok {
      assert status == Err(ENODEV) || status == Err(EBUSY);
      CalibrationWritesSinceNone(port.log, port.regs);
      return Finished(status);
    }
    assert Dividers(input, m, n, clocks[..]) == ds;
    assert Searches(clocks[..]) == searches;
    outcome := PhaseStage(port, r, input, m, n, clocks);
  }

  /** The clocks after the routine past its range test and its read of 0x0003:
      unchanged when the reset's wait fails, and as ConfigureClocks says otherwise. */
  predicate StagesClocks(busy0: seq<BusySample>, isQPCIe: bool, rawReads0: seq<seq<byte>>,
                         input: nat, m: nat, n: nat, cs: seq<Clock>, cs': seq<Clock>)
    requires AllConfigured(cs) && m < 0x100_0000 && n < 0x100_0000
  {
    && (WaitOutcome(isQPCIe, busy0) != Ok ==> cs' == cs)
    && (WaitOutcome(isQPCIe, busy0) == Ok ==>
          ConfigureClocks(WaitRest(isQPCIe, busy0), isQPCIe, rawReads0, input, m, n, cs, cs'))
  }

  /** The stages after the reset: the VCO candidates and their scores, the VCO
      test, the configuration batch and its wait, then the phase stage. */
  method ConfigureStage(port: Port, r: bv16, input: nat, m: nat, n: nat, clocks: array<Clock>)
    returns (outcome: PllOutcome)
    requires AllConfigured(clocks[..]) && m < 0x100_0000 && n < 0x100_0000
    requires VcoInRange(input, m, n) ==>
               DividersFit(Dividers(input, m, n, clocks[..])) && PhaseStepsFit(input, m, n, clocks[..])
    modifies port, clocks
    ensures var (m', n') := ChosenMN(old(clocks[..]), m, n);
            outcome != Finished(Err(ERANGE)) <==> VcoInRange(input, m', n')
    ensures var (m', n') := ChosenMN(old(clocks[..]), m, n);
            !VcoInRange(input, m', n') ==>
              clocks[..] == old(clocks[..]) && port.log == old(port.log) && port.regs == old(port.regs)
    ensures ConfigureEffect(old(port.log), old(port.regs), old(port.busy), port.isQPCIe, port.writeFailing, r,
                            input, m, n, old(clocks[..]), outcome, port.log, port.regs)
    ensures var (m', n') := ChosenMN(old(clocks[..]), m, n);
            (outcome == Finished(Ok) || outcome == Repeat) ==>
              forall i | 0 <= i < clocks.Length ::
                clocks[i].actualFrequency == Some(ActualFrequency(input, m', n', old(Dividers(input, m', n', clocks[..]))[i].c))
    ensures ConfigureClocks(old(port.busy), port.isQPCIe, old(port.rawReads), input, m, n, old(clocks[..]), clocks[..])
    ensures Setting(port) == old(Setting(port))
  {
    var vcos := EnumerateVcos(clocks);
    // The scores pick the candidates the float deviation search runs over. That
    // search is not modelled: its result comes in as m and n, so nothing below
    // reads the scores.
    var scores, bestScore := ScoreVcos(vcos, clocks);
    var m', n' := m, n;
    if vcos == {} {
      m', n' := 0, 0;
    }
    if !VcoInRange(input, m', n') {
      return Finished(Err(ERANGE));
    }
    outcome := CommitStage(port, r, input, m', n', clocks);
  }

  /** What the routine does once the port is open, the inputs are in range and
      0x0003 can be read: the direct-clock write and the reset pulse, computed from
      the values 0x0005 and 0x0003 held. A failed reset wait ends the routine with
      its verdict; otherwise the configuration goes on as ConfigureEffect says. */
  predicate StagesEffect(log0: seq<Write>, regs0: map<nat, bv32>, busy0: seq<BusySample>, v0005: bv32, v0003: bv32,
                         readFailing: set<nat>, writeFailing: set<nat>, isQPCIe: bool, pllIndex: nat,
                         input: nat, m: nat, n: nat, cs: seq<Clock>,
                         outcome: PllOutcome, log: seq<Write>, regs: map<nat, bv32>)
    requires pllIndex < 32 && AllConfigured(cs) && m < 0x100_0000 && n < 0x100_0000
    requires VcoInRange(input, m, n) ==> DividersFit(Dividers(input, m, n, cs))
  {
    var r := PllSelectWord(Low16(v0003), pllIndex as bv16);
    var reset := DirectClockWrites(readFailing, writeFailing, v0005, pllIndex) + Logged(writeFailing, PllResetWrites(r));
    var verdict := WaitOutcome(isQPCIe, busy0);
    && (verdict != Ok ==> outcome == Finished(verdict) && log == log0 + reset && regs == Apply(regs0, reset))
    && (verdict == Ok ==>
          ConfigureEffect(log0 + reset, Apply(regs0, reset), WaitRest(isQPCIe, busy0), isQPCIe, writeFailing, r,
                          input, m, n, cs, outcome, log, regs))
  }

  /** StagesEffect from the states around the reset stage: log1, regs1 and busy1 are
      what the reset left, and the configuration stage went on from there. */
  lemma StagesEffectFromStages(log0: seq<Write>, regs0: map<nat, bv32>, busy0: seq<BusySample>, v0005: bv32,
                               v0003: bv32, readFailing: set<nat>, writeFailing: set<nat>, isQPCIe: bool,
                               pllIndex: nat, input: nat, m: nat, n: nat, cs: seq<Clock>,
                               outcome: PllOutcome, log: seq<Write>, regs: map<nat, bv32>,
                               r: bv16, log1: seq<Write>, regs1: map<nat, bv32>, busy1: seq<BusySample>)
    requires pllIndex < 32 && AllConfigured(cs) && m < 0x100_0000 && n < 0x100_0000
    requires VcoInRange(input, m, n) ==> DividersFit(Dividers(input, m, n, cs))
    requires r == PllSelectWord(Low16(v0003), pllIndex as bv16)
    requires var direct := DirectClockWrites(readFailing, writeFailing, v0005, pllIndex);
             log1 == log0 + direct + Logged(writeFailing, PllResetWrites(r))
             && regs1 == Apply(regs0, direct + Logged(writeFailing, PllResetWrites(r)))
    requires busy1 == WaitRest(isQPCIe, busy0)
    requires WaitOutcome(isQPCIe, busy0) != Ok ==>
               outcome == Finished(WaitOutcome(isQPCIe, busy0)) && log == log1 && regs == regs1
    requires WaitOutcome(isQPCIe, busy0) == Ok ==>
               ConfigureEffect(log1, regs1, busy1, isQPCIe, writeFailing, r, input, m, n, cs, outcome, log, regs)
    ensures StagesEffect(log0, regs0, busy0, v0005, v0003, readFailing, writeFailing, isQPCIe, pllIndex,
                         input, m, n, cs, outcome, log, regs)
  {
    var direct := DirectClockWrites(readFailing, writeFailing, v0005, pllIndex);
    assert log0 + direct + Logged(writeFailing, PllResetWrites(r))
        == log0 + (direct + Logged(writeFailing, PllResetWrites(r)));
  }

  /** SetPllFrequency. A PLL index above 15 is only reported (warned) and the
      routine goes on. M and N are those the deviation search picked. */
  method SetPllFrequency(port: Port?, pllIndex: nat, input: nat, clocks: array<Clock>, m: nat, n: nat)
    returns (outcome: PllOutcome, warned: bool)
    requires pllIndex < 32 && clocks.Length <= 24 && AllRequested(clocks[..])
    requires m < 0x100_0000 && n < 0x100_0000
    requires InputsInRange(input, clocks[..]) && VcoInRange(input, m, n) ==>
               DividersFit(Dividers(input, m, n, clocks[..])) && PhaseStepsFit(input, m, n, clocks[..])
    modifies port, clocks
    ensures port == null || !port.isOpen ==> outcome == Finished(Err(ENODEV)) && !warned
    ensures warned <==> port != null && port.isOpen && pllIndex > 15
    ensures port != null && port.isOpen && !InputsInRange(input, old(clocks[..])) ==>
              outcome == Finished(Err(ERANGE)) && port.log == old(port.log) && port.busy == old(port.busy)
    ensures port == null || !port.isOpen || !InputsInRange(input, old(clocks[..])) ==> clocks[..] == old(clocks[..])
    ensures port != null && (!port.isOpen || !InputsInRange(input, old(clocks[..]))) ==> port.log == old(port.log)
    ensures port != null && port.isOpen && InputsInRange(input, old(clocks[..])) && PllInfo in port.readFailing ==>
              outcome == Finished(Err(ENODEV)) && clocks[..] == old(clocks[..])
    ensures port != null && port.isOpen && InputsInRange(input, old(clocks[..])) && PllInfo !in port.readFailing ==>
              StagesEffect(old(port.log), old(port.regs), old(port.busy), old(port.Value(DirectClockCtrl)),
                           old(port.Value(PllInfo)), port.readFailing, port.writeFailing, port.isQPCIe, pllIndex,
                           input, m, n, old(clocks[..]), outcome, port.log, port.regs)
    ensures port != null && port.isOpen && InputsInRange(input, old(clocks[..])) && PllInfo !in port.readFailing ==>
              StagesClocks(old(port.busy), port.isQPCIe, old(port.rawReads), input, m, n, old(clocks[..]), clocks[..])
    ensures outcome == Finished(Ok) || outcome == Repeat ==>
              port != null && InputsInRange(input, old(clocks[..])) && PllInfo !in port.readFailing
              && var (m', n') := ChosenMN(old(clocks[..]), m, n);
                 VcoInRange(input, m', n')
                 && forall i | 0 <= i < clocks.Length ::
                      clocks[i].actualFrequency == Some(ActualFrequency(input, m', n', old(Dividers(input, m', n', clocks[..]))[i].c))
    ensures InputsInRange(input, old(clocks[..])) && AllCandidates(old(clocks[..])) == {} ==>
              outcome.Finished? && outcome.status != Ok
    ensures port != null ==> Setting(port) == old(Setting(port))
  {
    if port == null || !port.isOpen {
      return Finished(Err(ENODEV)), false;
    }
    warned := pllIndex > 15;
    var status := CheckRanges(input, clocks);
    if status != Ok {
      return Finished(status), warned;
    }
    outcome := RunStages(port, pllIndex, input, clocks, m, n);
  }

  /** SetPllFrequency past the range test: the reset stage, then the rest. */
  method RunStages(port: Port, pllIndex: nat, input: nat, clocks: array<Clock>, m: nat, n: nat)
    returns (outcome: PllOutcome)
    requires pllIndex < 32 && AllConfigured(clocks[..])
    requires m < 0x100_0000 && n < 0x100_0000
    requires VcoInRange(input, m, n) ==>
               DividersFit(Dividers(input, m, n, clocks[..])) && PhaseStepsFit(input, m, n, clocks[..])
    modifies port, clocks
    ensures PllInfo in port.readFailing ==> outcome == Finished(Err(ENODEV)) && clocks[..] == old(clocks[..])
    ensures PllInfo !in port.readFailing ==>
              StagesEffect(old(port.log), old(port.regs), old(port.busy), old(port.Value(DirectClockCtrl)),
                           old(port.Value(PllInfo)), port.readFailing, port.writeFailing, port.isQPCIe, pllIndex,
                           input, m, n, old(clocks[..]), outcome, port.log, port.regs)
    ensures PllInfo !in port.readFailing ==>
              StagesClocks(old(port.busy), port.isQPCIe, old(port.rawReads), input, m, n, old(clocks[..]), clocks[..])
    ensures outcome == Finished(Ok) || outcome == Repeat ==>
              PllInfo !in port.readFailing
              && var (m', n') := ChosenMN(old(clocks[..]), m, n);
                 VcoInRange(input, m', n')
                 && forall i | 0 <= i < clocks.Length ::
                      clocks[i].actualFrequency == Some(ActualFrequency(input, m', n', old(Dividers(input, m', n', clocks[..]))[i].c))
    ensures AllCandidates(old(clocks[..])) == {} ==> outcome.Finished? && outcome.status != Ok
    ensures Setting(port) == old(Setting(port))
  {
    ghost var v0005, v0003 := port.Value(DirectClockCtrl), port.Value(PllInfo);
    var status, r := ResetStage(port, pllIndex);
    ghost var log1, regs1, busy1 := port.log, port.regs, port.busy;
    if status != Ok {
      outcome := Finished(status);
    } else {
      outcome := ConfigureStage(port, r, input, m, n, clocks);
      if AllCandidates(old(clocks[..])) == {} {
        NoCandidates(old(clocks[..]), input, m, n);
      }
    }
    if PllInfo !in port.readFailing {
      StagesEffectFromStages(old(port.log), old(port.regs), old(port.busy), v0005, v0003, port.readFailing,
                             port.writeFailing, port.isQPCIe, pllIndex, input, m, n, old(clocks[..]), outcome,
                             port.log, port.regs, r, log1, regs1, busy1);
    }
  }

  // ---------------------------------------------------------------------------
  // SetDirectClocking

  /** The word that enables direct clocking of clock clockIndex in 0x0005: its bit
      set, every other bit as read (the contract of SetMask). */
  function DirectClockOn(v: bv16, clockIndex: bv32): bv32
    requires clockIndex < 32
  {
    SetMask(v as bv32, (1 as bv32) << clockIndex)
  }

  /** SetDirectClocking: read 0x0005 (zero if the read fails) and 0x0006 (not
      used), then write 0x0005 with the clock's bit set; a failed write is EIO. The
      phase arguments are not used. */
  method SetDirectClocking(port: Port?, clockIndex: nat, inputFreq: real, phaseShiftDeg: real)
    returns (status: Status)
    requires clockIndex < 32
    modifies port
    ensures port == null || !port.isOpen ==> status == Err(ENODEV)
    ensures port != null && !port.isOpen ==> port.log == old(port.log) && port.regs == old(port.regs)
    ensures port != null && port.isOpen ==>
              var v := if DirectClockCtrl in port.readFailing then 0 else Low16(old(port.Value(DirectClockCtrl)));
              var ws := [Write(DirectClockCtrl, DirectClockOn(v, clockIndex as bv32))];
              status == (if DirectClockCtrl in port.writeFailing then Err(EIO) else Ok)
              && port.log == old(port.log) + Logged(port.writeFailing, ws)
              && port.regs == Apply(old(port.regs), Logged(port.writeFailing, ws))
    ensures port != null ==> Setting(port) == old(Setting(port)) && port.busy == old(port.busy)
                             && port.rawReads == old(port.rawReads)
  {
    if port == null || !port.isOpen {
      return Err(ENODEV);
    }
    var st, v0005 := port.ReadRegister(DirectClockCtrl);
    var st', v0006 := port.ReadRegister(0x0006);
    var ws := [Write(DirectClockCtrl, DirectClockOn(v0005, clockIndex as bv32))];
    var written := port.WriteRegisters(ws);
    if written != Ok {
      assert ws[0].addr in port.writeFailing;
      return Err(EIO);
    }
    return Ok;
  }
}
