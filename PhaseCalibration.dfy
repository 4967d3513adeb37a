/** The phase search of SetPllFrequency (FPGA_common.cpp) for an output with
    findPhase set: step the output's phase through one turn, capture a raw block of
    the test pattern after every step, and keep the window of phases at which the
    capture comes through intact. */
module PhaseCalibration {
  import opened Base
  import opened Arith
  import opened RegisterPort
  import opened FpgaPll
  import RawCapture
  import FpgaStreaming

  /** testSize: the bytes one capture should deliver (four 4096-byte pages). */
  const TestSize: nat := 16 * 1024
  const PageSize: nat := 4096
  /** The triplets checked per page: from offset 16 to the page's end. */
  const TripletsPerPage: nat := 1360

  // ---------------------------------------------------------------------------
  // The pattern scan

  /** The t-th checked triplet of page k: a page's first 16 bytes are a header the
      scan skips. */
  function ScanPos(k: nat, t: nat): nat
  {
    PageSize * k + 16 + 3 * t
  }

  predicate Triplet(buf: seq<byte>, p: nat)
  {
    p + 2 < |buf| && buf[p] == 0xAA && buf[p + 1] == 0x5A && buf[p + 2] == 0x55
  }

  /** A capture passes: it has exactly testSize bytes, and every triplet of every
      page past the page header is AA 5A 55. */
  predicate PatternOk(buf: seq<byte>)
  {
    |buf| == TestSize && forall k: nat, t: nat | k < 4 && t < TripletsPerPage :: Triplet(buf, ScanPos(k, t))
  }

  /** Every checked triplet lies inside its own page, past the header. */
  lemma ScanPosInPage(k: nat, t: nat)
    requires t < TripletsPerPage
    ensures PageSize * k + 16 <= ScanPos(k, t) && ScanPos(k, t) + 2 < PageSize * (k + 1)
  {
  }

  /** The scan loop: j from 16 in steps of three, sixteen more whenever j reaches
      a page boundary, stopping at the first triplet that is not AA 5A 55. A capture
      of the wrong length fails without being scanned. */
  method ScanPattern(buf: seq<byte>) returns (ok: bool)
    ensures ok <==> PatternOk(buf)
  {
    if |buf| != TestSize {
      return false;
    }
    var j := 16;
    ghost var k, t := 0, 0;
    while j < TestSize
      invariant k < 4 && t <= TripletsPerPage && j == ScanPos(k, t)
      invariant t == TripletsPerPage ==> k < 3 || j == TestSize
      invariant forall k': nat, t': nat | (k' < k && t' < TripletsPerPage) || (k' == k && t' < t) ::
                  Triplet(buf, ScanPos(k', t'))
      decreases TestSize - j
    {
      if t == TripletsPerPage {
        DivModUnique(j, PageSize, k + 1, 0);
      } else {
        DivModUnique(j, PageSize, k, 16 + 3 * t);
      }
      if j % PageSize == 0 {
        j := j + 16;
        k, t := k + 1, 0;
      }
      ScanPosInPage(k, t);
      if buf[j] != 0xAA || buf[j + 1] != 0x5A || buf[j + 2] != 0x55 {
        assert !Triplet(buf, ScanPos(k, t));
        return false;
      }
      j := j + 3;
      t := t + 1;
    }
    assert k == 3 && t == TripletsPerPage;
    return true;
  }

  // ---------------------------------------------------------------------------
  // The passing window

  /** The index of the first passing capture of ps. */
  function FirstPass(ps: seq<bool>): (r: Option<nat>)
    ensures r.Some? ==> r.value < |ps| && ps[r.value]
    decreases |ps|
  {
    if ps == [] then None
    else if FirstPass(ps[..|ps| - 1]).Some? then FirstPass(ps[..|ps| - 1])
    else if ps[|ps| - 1] then Some(|ps| - 1)
    else None
  }

  /** The index of the first failing capture after index a. */
  function FirstFailAfter(ps: seq<bool>, a: nat): Option<nat>
    decreases |ps|
  {
    if ps == [] then None
    else if FirstFailAfter(ps[..|ps| - 1], a).Some? then FirstFailAfter(ps[..|ps| - 1], a)
    else if |ps| - 1 > a && !ps[|ps| - 1] then Some(|ps| - 1)
    else None
  }

  /** FirstPass finds the first passing capture, and only it. */
  lemma {:induction false} FirstPassIsFirst(ps: seq<bool>)
    ensures FirstPass(ps).Some? ==>
              var a := FirstPass(ps).value; a < |ps| && ps[a] && forall i | 0 <= i < a :: !ps[i]
    ensures FirstPass(ps).None? ==> forall i | 0 <= i < |ps| :: !ps[i]
    decreases |ps|
  {
    if ps != [] {
      var init := ps[..|ps| - 1];
      FirstPassIsFirst(init);
      assert forall i | 0 <= i < |init| :: init[i] == ps[i];
    }
  }

  /** FirstFailAfter finds the first failing capture after a, and only it. */
  lemma {:induction false} FirstFailAfterIsFirst(ps: seq<bool>, a: nat)
    ensures FirstFailAfter(ps, a).Some? ==>
              var b := FirstFailAfter(ps, a).value;
              a < b < |ps| && !ps[b] && forall i | a < i < b :: ps[i]
    ensures FirstFailAfter(ps, a).None? ==> forall i | a < i < |ps| :: ps[i]
    decreases |ps|
  {
    if ps != [] {
      var init := ps[..|ps| - 1];
      FirstFailAfterIsFirst(init, a);
      assert forall i | 0 <= i < |init| :: init[i] == ps[i];
    }
  }

  lemma {:induction false} FirstPassPrefix(ps: seq<bool>, n: nat)
    requires n <= |ps| && FirstPass(ps[..n]).Some?
    ensures FirstPass(ps) == FirstPass(ps[..n])
    decreases |ps| - n
  {
    if n < |ps| {
      assert ps[..n + 1][..n] == ps[..n];
      FirstPassPrefix(ps, n + 1);
    } else {
      assert ps[..n] == ps;
    }
  }

  lemma {:induction false} FirstFailAfterPrefix(ps: seq<bool>, a: nat, n: nat)
    requires n <= |ps| && FirstFailAfter(ps[..n], a).Some?
    ensures FirstFailAfter(ps, a) == FirstFailAfter(ps[..n], a)
    decreases |ps| - n
  {
    if n < |ps| {
      assert ps[..n + 1][..n] == ps[..n];
      FirstFailAfterPrefix(ps, a, n + 1);
    } else {
      assert ps[..n] == ps;
    }
  }

  /** The window of passing captures: the first passing capture and the first
      failing capture after it, either of which may be missing. */
  function Window(ps: seq<bool>): (Option<nat>, Option<nat>)
  {
    match FirstPass(ps)
    case None => (None, None)
    case Some(a) => (Some(a), FirstFailAfter(ps, a))
  }

  /** The number of captures the search takes: up to the one that closes the
      window, or all of them. */
  function Taken(ps: seq<bool>): nat
  {
    match Window(ps)
    case (Some(_), Some(b)) => b + 1
    case _ => |ps|
  }

  // ---------------------------------------------------------------------------
  // Phases

  /** Fstep_deg = 360*Fstep_us*fOut_MHz with Fstep_us = 1/(8*fOut_MHz*C): one
      step of an output with divider C is 45/C degrees. */
  function StepDegrees(c: nat): real
    requires c > 0
  {
    45.0 / c as real
  }

  /** nSteps = int(6.0/Fstep_deg) = int(2C/15), and one when that is zero. */
  function SearchSteps(c: nat): (n: nat)
    ensures n >= 1
  {
    if (6 * c) / 45 == 0 then 1 else (6 * c) / 45
  }

  /** The number of phases the search visits, the k >= 1 with
      k*nSteps*Fstep_deg <= 360, that is with k*nSteps <= 8*C. An output with C == 0
      has an infinite step and visits none. */
  function VisitedPhases(c: nat): nat
  {
    (8 * c) / SearchSteps(c)
  }

  lemma VisitedPhasesBound(c: nat, k: nat)
    ensures k <= VisitedPhases(c) <==> k * SearchSteps(c) <= 8 * c
  {
    var d := SearchSteps(c);
    var e := VisitedPhases(c);
    assert 8 * c == e * d + (8 * c) % d;
    if k <= e {
      MulMono(k, e, d);
    } else {
      MulLess(e, k, d);
    }
  }

  /** The k-th phase visited, k*nSteps*Fstep_deg degrees. */
  function Phase(c: nat, k: nat): real
  {
    if c == 0 then 0.0 else (45 * k * SearchSteps(c)) as real / c as real
  }

  /** The visited phases lie in (0, 360] and increase with k. */
  lemma PhaseRange(c: nat, k: nat)
    requires 1 <= k <= VisitedPhases(c)
    ensures 0.0 < Phase(c, k) <= 360.0
  {
    VisitedPhasesBound(c, k);
    var d := SearchSteps(c);
    MulAtLeast(k, d);
    var p := k * d;
    assert 45 * k * d == 45 * p;
    QuotientInTurn((45 * p) as real, c as real);
  }

  lemma QuotientInTurn(x: real, r: real)
    requires r > 0.0 && 0.0 < x <= 360.0 * r
    ensures 0.0 < x / r <= 360.0
  {
  }

  lemma PhaseIncreasing(c: nat, k: nat, l: nat)
    requires c > 0 && k < l
    ensures Phase(c, k) < Phase(c, l)
  {
    var d := SearchSteps(c);
    MulLess(45 * k, 45 * l, d);
    DivLess((45 * k * d) as real, (45 * l * d) as real, c as real);
  }

  lemma DivLess(x: real, y: real, r: real)
    requires r > 0.0 && x < y
    ensures x / r < y / r
  {
  }

  /** Whether the i-th capture passes; a capture past the supplied ones fails. */
  predicate Passes(captures: seq<seq<byte>>, i: int)
  {
    0 <= i < |captures| && PatternOk(if |captures[i]| <= TestSize then captures[i] else captures[i][..TestSize])
  }

  /** The results of the captures at the visited phases. */
  function Results(captures: seq<seq<byte>>, c: nat): (ps: seq<bool>)
    ensures |ps| == VisitedPhases(c)
  {
    seq(VisitedPhases(c), i => Passes(captures, i))
  }

  /** The window in degrees, as min and max: min is -1 when no capture passed, max
      is 360 when the window did not close before the turn ended. */
  function WindowDegrees(captures: seq<seq<byte>>, c: nat): (real, real)
  {
    var (lo, hi) := Window(Results(captures, c));
    (if lo.Some? then Phase(c, lo.value + 1) else -1.0,
     if hi.Some? then Phase(c, hi.value + 1) else 360.0)
  }

  /** A window that was found is an interval of the turn, and its middle,
      the phase the search selects, lies inside it. */
  lemma WindowInTurn(captures: seq<seq<byte>>, c: nat)
    ensures var (lo, hi) := WindowDegrees(captures, c);
            lo != -1.0 ==> 0.0 < lo <= hi <= 360.0 && lo <= (lo + hi) / 2.0 <= hi
  {
    var ps := Results(captures, c);
    FirstPassIsFirst(ps);
    if FirstPass(ps).Some? {
      var a := FirstPass(ps).value;
      PhaseRange(c, a + 1);
      FirstFailAfterIsFirst(ps, a);
      if FirstFailAfter(ps, a).Some? {
        var b := FirstFailAfter(ps, a).value;
        PhaseRange(c, b + 1);
        PhaseIncreasing(c, a + 1, b + 1);
      }
    }
  }

  /** What is left of the captures after n of them were taken. */
  function Drop(captures: seq<seq<byte>>, n: nat): seq<seq<byte>>
  {
    if n <= |captures| then captures[n..] else []
  }

  lemma DropStep(captures: seq<seq<byte>>, i: nat)
    ensures i < |captures| ==> Drop(captures, i) != [] && Drop(captures, i)[0] == captures[i]
                               && Drop(captures, i)[1..] == Drop(captures, i + 1)
    ensures i >= |captures| ==> Drop(captures, i) == [] && Drop(captures, i + 1) == []
  {
  }

  /** How the window of the first n + 1 results follows from that of the first n
      and the next result. */
  lemma WindowStep(ps: seq<bool>, n: nat, a: nat)
    requires n < |ps|
    ensures FirstPass(ps[..n + 1]) ==
              if FirstPass(ps[..n]).Some? then FirstPass(ps[..n]) else if ps[n] then Some(n) else None
    ensures FirstFailAfter(ps[..n + 1], a) ==
              if FirstFailAfter(ps[..n], a).Some? then FirstFailAfter(ps[..n], a)
              else if n > a && !ps[n] then Some(n) else None
  {
    assert ps[..n + 1][..n] == ps[..n];
    assert ps[..n + 1][n] == ps[n];
  }

  // ---------------------------------------------------------------------------
  // The search

  /** Only writes to the PLL control and phase step registers, and the capture's
      writes to the interface control and set-up registers. */
  predicate CalibrationRegistersOnly(ws: seq<Write>)
  {
    forall w | w in ws :: CalibrationRegister(w.addr)
  }

  predicate CalibrationRegister(addr: nat)
  {
    addr == PllCtrl || addr == FpgaPll.PhaseCount || addr == FpgaStreaming.InterfaceCtrl
    || addr == RawCapture.SampleFormatReg || addr == RawCapture.ChannelEnableReg
  }

  lemma CalibrationRegistersConcat(a: seq<Write>, b: seq<Write>)
    requires CalibrationRegistersOnly(a) && CalibrationRegistersOnly(b)
    ensures CalibrationRegistersOnly(a + b)
  {
    forall w | w in a + b
      ensures CalibrationRegister(w.addr)
    {
      assert w in a || w in b;
    }
  }

  /** The port went from (log0, regs0) to (log, regs) by writes to the phase
      registers and the capture registers only. */
  predicate CalibrationWritesSince(log0: seq<Write>, regs0: map<nat, bv32>, log: seq<Write>, regs: map<nat, bv32>)
  {
    |log0| <= |log| && log[..|log0|] == log0 && CalibrationRegistersOnly(log[|log0|..])
    && regs == Apply(regs0, log[|log0|..])
  }

  lemma CalibrationWritesSinceNone(log: seq<Write>, regs: map<nat, bv32>)
    ensures CalibrationWritesSince(log, regs, log, regs)
  {
    assert log[..|log|] == log;
    assert log[|log|..] == [];
  }

  lemma CalibrationWritesSinceStart(log0: seq<Write>, regs0: map<nat, bv32>, ws: seq<Write>)
    requires CalibrationRegistersOnly(ws)
    ensures CalibrationWritesSince(log0, regs0, log0 + ws, Apply(regs0, ws))
  {
    assert (log0 + ws)[..|log0|] == log0;
    assert (log0 + ws)[|log0|..] == ws;
  }

  lemma CalibrationWritesSinceMore(log0: seq<Write>, regs0: map<nat, bv32>, log: seq<Write>, regs: map<nat, bv32>, ws: seq<Write>)
    requires CalibrationWritesSince(log0, regs0, log, regs) && CalibrationRegistersOnly(ws)
    ensures CalibrationWritesSince(log0, regs0, log + ws, Apply(regs, ws))
  {
    var done := log[|log0|..];
    assert log + ws == log0 + (done + ws) by {
      assert log == log0 + done;
    }
    assert Apply(regs, ws) == Apply(regs0, done + ws) by {
      ApplyConcat(regs0, done, ws);
    }
    CalibrationRegistersConcat(done, ws);
    CalibrationWritesSinceStart(log0, regs0, done + ws);
  }

  /** SetPllClock writes only the phase registers. */
  lemma SetPllClockRegisters(failing: set<nat>, r: bv16, cnt: bv16, nSteps: int, w: bv16, released: bool)
    requires cnt < 32 && -0x8000_0000 < nSteps < 0x8000_0000
    ensures forall x | x in Logged(failing, PhaseWrites(r, cnt, nSteps))
                            + (if released then Logged(failing, PhaseRelease(w)) else []) ::
              x.addr == PllCtrl || x.addr == FpgaPll.PhaseCount
    ensures CalibrationRegistersOnly(Logged(failing, PhaseWrites(r, cnt, nSteps))
                               + (if released then Logged(failing, PhaseRelease(w)) else []))
  {
  }

  /** One step of the phase and the capture and scan after it. The writes since
      any earlier log0 and regs0 stay phase and capture writes. */
  method VisitPhase(port: Port, index: byte, nSteps: nat, reg23: bv16, ghost captures: seq<seq<byte>>, ghost i: nat,
                    ghost log0: seq<Write>, ghost regs0: map<nat, bv32>)
    returns (result: bool, reg23': bv16)
    requires nSteps < 0x8000_0000 && port.rawReads == Drop(captures, i)
    requires CalibrationWritesSince(log0, regs0, port.log, port.regs)
    modifies port
    ensures result == Passes(captures, i) && port.rawReads == Drop(captures, i + 1)
    ensures CalibrationWritesSince(old(port.log), old(port.regs), port.log, port.regs)
    ensures CalibrationWritesSince(log0, regs0, port.log, port.regs)
    ensures Setting(port) == old(Setting(port))
    ensures reg23' == PhaseWord(reg23, CounterIndex(index as nat), true)
  {
    reg23' := StepPhase(port, index, nSteps, reg23);
    ghost var log1, regs1 := port.log, port.regs;
    result := CaptureAndScan(port, captures, i);
    CalibrationWritesSinceTrans(old(port.log), old(port.regs), log1, regs1, port.log, port.regs);
    CalibrationWritesSinceTrans(log0, regs0, old(port.log), old(port.regs), port.log, port.regs);
  }

  /** The capture of one test buffer from endpoint 0 and the scan of it; the log
      gains exactly the capture's writes. */
  method CaptureAndScan(port: Port, ghost captures: seq<seq<byte>>, ghost i: nat) returns (result: bool)
    requires port.rawReads == Drop(captures, i)
    modifies port
    ensures result == Passes(captures, i) && port.rawReads == Drop(captures, i + 1)
    ensures var ws := RawCapture.CaptureWrites(old(port.regs), port.readFailing, port.writeFailing, 0);
            port.log == old(port.log) + ws && port.regs == Apply(old(port.regs), ws)
    ensures CalibrationWritesSince(old(port.log), old(port.regs), port.log, port.regs)
    ensures Setting(port) == old(Setting(port))
  {
    DropStep(captures, i);
    var data := RawCapture.ReadRawStreamData(port, TestSize, 0);
    ghost var ws := RawCapture.CaptureWrites(old(port.regs), port.readFailing, port.writeFailing, 0);
    RawCapture.CaptureWritesRegisters(old(port.regs), port.readFailing, port.writeFailing, 0);
    CalibrationWritesSinceStart(old(port.log), old(port.regs), ws);
    result := ScanPattern(data);
  }

  /** min after the first n results: the phase of the first pass, or -1. */
  function MinSoFar(c: nat, ps: seq<bool>, n: nat): real
    requires n <= |ps|
  {
    if FirstPass(ps[..n]).Some? then Phase(c, FirstPass(ps[..n]).value + 1) else -1.0
  }

  /** No failure has followed the first pass among the first n results. */
  predicate OpenAfter(ps: seq<bool>, n: nat)
    requires n <= |ps|
  {
    FirstPass(ps[..n]).Some? ==> FirstFailAfter(ps[..n], FirstPass(ps[..n]).value).None?
  }

  /** One pass of the search loop on the window: the test min < 0 tells whether a
      pass has been seen, a first pass sets min, a failure after it closes the
      window, and anything else leaves the window open as it was. */
  lemma WindowAdvance(c: nat, ps: seq<bool>, n: nat)
    requires |ps| == VisitedPhases(c) && n < |ps| && OpenAfter(ps, n)
    ensures (MinSoFar(c, ps, n) < 0.0) == FirstPass(ps[..n]).None?
    ensures ps[n] && MinSoFar(c, ps, n) < 0.0 ==> MinSoFar(c, ps, n + 1) == Phase(c, n + 1) && OpenAfter(ps, n + 1)
    ensures !ps[n] && MinSoFar(c, ps, n) >= 0.0 ==>
              Window(ps) == (FirstPass(ps[..n]), Some(n)) && Taken(ps) == n + 1
    ensures ps[n] == (MinSoFar(c, ps, n) >= 0.0) ==> MinSoFar(c, ps, n + 1) == MinSoFar(c, ps, n) && OpenAfter(ps, n + 1)
  {
    var lo := FirstPass(ps[..n]);
    WindowStep(ps, n, if lo.Some? then lo.value else n);
    if lo.None? {
      FirstFailAfterIsFirst(ps[..n], n);
    } else {
      FirstPassIsFirst(ps[..n]);
      PhaseRange(c, lo.value + 1);
      if !ps[n] {
        FirstPassPrefix(ps, n + 1);
        FirstFailAfterPrefix(ps, lo.value, n + 1);
      }
    }
  }

  /** A loop that ran through every visited phase leaves the window open. */
  lemma WindowOpenToEnd(c: nat, ps: seq<bool>)
    requires OpenAfter(ps, |ps|)
    ensures Window(ps) == (FirstPass(ps), None) && Taken(ps) == |ps|
    ensures MinSoFar(c, ps, |ps|) == if FirstPass(ps).Some? then Phase(c, FirstPass(ps).value + 1) else -1.0
  {
    assert ps[..|ps|] == ps;
  }

  /** One SetPllClock call whose outcome is not checked: it writes the phase
      registers only and takes no capture. */
  method StepPhase(port: Port, index: byte, nSteps: int, reg23: bv16) returns (reg23': bv16)
    requires -0x8000_0000 < nSteps < 0x8000_0000
    modifies port
    ensures reg23' == PhaseWord(reg23, CounterIndex(index as nat), nSteps >= 0)
    ensures port.rawReads == old(port.rawReads)
    ensures CalibrationWritesSince(old(port.log), old(port.regs), port.log, port.regs)
    ensures Setting(port) == old(Setting(port))
  {
    var st;
    st, reg23' := SetPllClock(port, index as nat, nSteps, reg23);
    SetPllClockRegisters(port.writeFailing, reg23, CounterIndex(index as nat), nSteps, reg23', st == Ok);
    CalibrationWritesSinceStart(old(port.log), old(port.regs), port.log[|old(port.log)|..]);
    assert old(port.log) + port.log[|old(port.log)|..] == port.log;
  }

  lemma CalibrationWritesSinceTrans(log0: seq<Write>, regs0: map<nat, bv32>, log1: seq<Write>, regs1: map<nat, bv32>,
                              log2: seq<Write>, regs2: map<nat, bv32>)
    requires CalibrationWritesSince(log0, regs0, log1, regs1) && CalibrationWritesSince(log1, regs1, log2, regs2)
    ensures CalibrationWritesSince(log0, regs0, log2, regs2)
  {
    var ws := log2[|log1|..];
    assert log2 == log1 + ws;
    CalibrationWritesSinceMore(log0, regs0, log1, regs1, ws);
  }

  /** The search for one output with divider C: the initial step, then a step, a
      capture and a scan per visited phase until the window closes or the turn ends.
      min and max are -1 and 360 when nothing passed, as the code leaves them. */
  method Calibrate(port: Port, index: byte, c: nat, reg23: bv16)
    returns (minDeg: real, maxDeg: real, reg23': bv16)
    requires c < 0x100_0000
    modifies port
    ensures (minDeg, maxDeg) == WindowDegrees(old(port.rawReads), c)
    ensures port.rawReads == Drop(old(port.rawReads), Taken(Results(old(port.rawReads), c)))
    ensures CalibrationWritesSince(old(port.log), old(port.regs), port.log, port.regs)
    ensures Setting(port) == old(Setting(port))
    ensures reg23' == PhaseWord(reg23, CounterIndex(index as nat), true)
  {
    var nSteps := SearchSteps(c);
    ghost var captures := port.rawReads;
    ghost var ps := Results(captures, c);
    reg23' := StepPhase(port, index, nSteps, reg23);
    minDeg, maxDeg := -1.0, 360.0;
    var k := 1;
    while k * nSteps <= 8 * c
      invariant 1 <= k <= |ps| + 1
      invariant port.rawReads == Drop(captures, k - 1)
      invariant CalibrationWritesSince(old(port.log), old(port.regs), port.log, port.regs)
      invariant Setting(port) == old(Setting(port))
      invariant minDeg == MinSoFar(c, ps, k - 1) && OpenAfter(ps, k - 1)
      invariant maxDeg == 360.0
      invariant reg23' == PhaseWord(reg23, CounterIndex(index as nat), true)
      decreases 8 * c + 1 - k * nSteps
    {
      VisitedPhasesBound(c, k);
      var result;
      PhaseWordIdempotent(reg23, CounterIndex(index as nat), true);
      result, reg23' := VisitPhase(port, index, nSteps, reg23', captures, k - 1, old(port.log), old(port.regs));
      WindowAdvance(c, ps, k - 1);
      var phase := Phase(c, k);
      if result && minDeg < 0.0 {
        minDeg := phase;
      } else if !result && minDeg >= 0.0 {
        maxDeg := phase;
        return;
      }
      MulSucc(k, nSteps);
      k := k + 1;
    }
    VisitedPhasesBound(c, k);
    WindowOpenToEnd(c, ps);
  }
}
