/** FPGA_PLL_clock of FPGA_common.h: the description of one PLL output that the
    caller fills in and SetPllFrequency completes. */
module PllClock {
  import opened Base

  /** rd_actualFrequency as SetPllFrequency computes it: (Fvco) / (chigh + clow),
      which is a positive infinity when that divider is zero. */
  datatype Frequency = Hz(hz: real) | Infinite

  /** One clock. outFrequency and rd_actualFrequency are left uninitialised by the
      constructor, shown here as None; frequencies are whole hertz, the phase shift a
      number of degrees, the index a uint8_t. */
  datatype Clock = Clock(outFrequency: Option<nat>, phaseShiftDeg: real, index: byte,
                         bypass: bool, findPhase: bool, actualFrequency: Option<Frequency>)

  /** FPGA_PLL_clock(): no phase search, no bypass, no phase shift, output index 0. */
  function DefaultClock(): (c: Clock)
    ensures !c.findPhase && !c.bypass
    ensures c.phaseShiftDeg == 0.0 && c.index == 0
    ensures c.outFrequency.None? && c.actualFrequency.None?
  {
    Clock(None, 0.0, 0, false, false, None)
  }

  /** The caller's part: a clock whose output frequency has been set. */
  function WithOutput(c: Clock, hz: nat): (r: Clock)
    ensures r.outFrequency == Some(hz)
    ensures r.phaseShiftDeg == c.phaseShiftDeg && r.index == c.index && r.bypass == c.bypass
    ensures r.findPhase == c.findPhase && r.actualFrequency == c.actualFrequency
  {
    c.(outFrequency := Some(hz))
  }

  /** A clock the PLL routine can work with: its output frequency has been set, and
      is non-zero (the routine divides by it). */
  predicate Configured(c: Clock)
  {
    c.outFrequency.Some? && c.outFrequency.value > 0
  }

  /** A clock as SetPllFrequency takes it: its output frequency has been set, and
      is non-zero when the output is bypassed. The range test refuses a slow output
      that is not bypassed, zero included, before any division; a bypassed one goes
      on to the divisions by its frequency. */
  predicate Requested(c: Clock)
  {
    c.outFrequency.Some? && (c.bypass ==> c.outFrequency.value > 0)
  }

  /** Setting the output of a default clock gives a clock SetPllFrequency takes,
      past its range test when the output is non-zero, that still has every default
      the constructor gave it. */
  lemma DefaultThenOutput(hz: nat)
    ensures var c := WithOutput(DefaultClock(), hz);
            Requested(c) && (hz > 0 ==> Configured(c))
            && !c.findPhase && !c.bypass && c.phaseShiftDeg == 0.0 && c.index == 0
            && c.actualFrequency.None?
  {
  }
}
