/** Stream control through the FPGA registers (StartStreaming, StopStreaming and
    ResetTimestamp of FPGA_common.cpp). Endpoint ep owns bits 2*ep and 2*ep+1 of the
    interface control register 0x000A (receive/transmit enable) and of 0x0009 (sample
    counter clear and Tx packet-loss clear). */
module FpgaStreaming {
  import opened Base
  import opened RegisterPort

  const InterfaceCtrl: nat := 0x000A
  const CounterCtrl: nat := 0x0009

  /** The source shifts an int by 2*ep, which is defined only below 32. */
  predicate ValidEndpoint(ep: nat)
  {
    ep <= 15
  }

  /** RX_EN << 2*ep */
  function EnableBit(ep: nat): bv32
    requires ValidEndpoint(ep)
  {
    (1 as bv32) << (2 * ep)
  }

  /** (RX_EN | TX_EN) << 2*ep, and equally (TXPCT_LOSS_CLR | SMPL_NR_CLR) << 2*ep. */
  function PairBits(ep: nat): bv32
    requires ValidEndpoint(ep)
  {
    (3 as bv32) << (2 * ep)
  }

  /** x with the bits of m set and every other bit as it was. */
  function SetMask(x: bv32, m: bv32): (w: bv32)
    ensures w & m == m
    ensures w & !m == x & !m
  {
    x | m
  }

  /** x with the bits of m clear and every other bit as it was. */
  function ClearMask(x: bv32, m: bv32): (w: bv32)
    ensures w & m == 0
    ensures w & !m == x & !m
  {
    x & !m
  }

  /** The word StartStreaming writes back to 0x000A. */
  function StartWord(v: bv16, ep: nat): bv32
    requires ValidEndpoint(ep)
  {
    SetMask(v as bv32, EnableBit(ep))
  }

  /** The word StopStreaming writes back to 0x000A. */
  function StopWord(v: bv16, ep: nat): bv32
    requires ValidEndpoint(ep)
  {
    ClearMask(v as bv32, PairBits(ep))
  }

  /** The three words ResetTimestamp writes to 0x0009 for the endpoint's clear bits m:
      those bits low, high, low again (a rising edge clears the counters), all other
      bits keeping the value read in every one of them. */
  function ResetWrites(v: bv16, m: bv32): seq<Write>
  {
    var low := ClearMask(v as bv32, m);
    var high := SetMask(v as bv32, m);
    [Write(CounterCtrl, low), Write(CounterCtrl, high), Write(CounterCtrl, low)]
  }

  /** The port's surroundings that none of these routines changes. */
  function Env(p: Port): (set<nat>, set<nat>, bool, bool, seq<BusySample>, seq<seq<byte>>)
    reads p
  {
    (p.readFailing, p.writeFailing, p.isOpen, p.isQPCIe, p.busy, p.rawReads)
  }

  /** StartStreaming: read 0x000A; on failure return that status without writing;
      otherwise write it back with the endpoint enabled and return the write's
      status. */
  method StartStreaming(port: Port, ep: nat) returns (status: Status)
    requires ValidEndpoint(ep)
    modifies port
    ensures InterfaceCtrl in port.readFailing ==>
              status == Err(PortFailure) && port.log == old(port.log) && port.regs == old(port.regs)
    ensures InterfaceCtrl !in port.readFailing ==>
              var ws := Logged(port.writeFailing,
                               [Write(InterfaceCtrl, StartWord(Low16(old(port.Value(InterfaceCtrl))), ep))]);
              status == (if InterfaceCtrl in port.writeFailing then Err(PortFailure) else Ok)
              && port.log == old(port.log) + ws && port.regs == Apply(old(port.regs), ws)
    ensures Env(port) == old(Env(port))
  {
    var v;
    status, v := port.ReadRegister(InterfaceCtrl);
    if status != Ok {
      return;
    }
    status := port.WriteRegister(InterfaceCtrl, StartWord(v, ep));
  }

  /** StopStreaming: like StartStreaming with both endpoint bits cleared, except that
      the status returned is the read's: the write's outcome is ignored. */
  method StopStreaming(port: Port, ep: nat) returns (status: Status)
    requires ValidEndpoint(ep)
    modifies port
    ensures InterfaceCtrl in port.readFailing ==>
              status == Err(PortFailure) && port.log == old(port.log) && port.regs == old(port.regs)
    ensures InterfaceCtrl !in port.readFailing ==>
              var ws := Logged(port.writeFailing,
                               [Write(InterfaceCtrl, StopWord(Low16(old(port.Value(InterfaceCtrl))), ep))]);
              status == Ok && port.log == old(port.log) + ws && port.regs == Apply(old(port.regs), ws)
    ensures Env(port) == old(Env(port))
  {
    var v;
    status, v := port.ReadRegister(InterfaceCtrl);
    if status != Ok {
      return;
    }
    var ignored := port.WriteRegister(InterfaceCtrl, StopWord(v, ep));
  }

  /** ResetTimestamp. In a debug build it first reads 0x000A and refuses with EPERM
      while the endpoint is receiving. Then it reads 0x0009 and pulses the endpoint's
      clear bits with three writes. A failed read ends it with status 0 and no write;
      the outcome of the writes is ignored. */
  method ResetTimestamp(port: Port, ep: nat, debugBuild: bool) returns (status: Status)
    requires ValidEndpoint(ep)
    modifies port
    ensures Env(port) == old(Env(port))
    ensures status == Err(EPERM) <==>
              debugBuild && InterfaceCtrl !in port.readFailing
              && Low16(old(port.Value(InterfaceCtrl))) as bv32 & EnableBit(ep) != 0
    ensures status != Err(EPERM) ==> status == Ok
    ensures var pulses := debugBuild ==> InterfaceCtrl !in port.readFailing
                                         && Low16(old(port.Value(InterfaceCtrl))) as bv32 & EnableBit(ep) == 0;
            var ws := if pulses && CounterCtrl !in port.readFailing
                      then Logged(port.writeFailing, ResetWrites(Low16(old(port.Value(CounterCtrl))), PairBits(ep)))
                      else [];
            port.log == old(port.log) + ws && port.regs == Apply(old(port.regs), ws)
  {
    if debugBuild {
      var st, ctrl := port.ReadRegister(InterfaceCtrl);
      if st != Ok {
        return Ok;
      }
      if (ctrl as bv32) & EnableBit(ep) != 0 {
        return Err(EPERM);
      }
    }
    var st, v := port.ReadRegister(CounterCtrl);
    if st != Ok {
      return Ok;
    }
    PulseCounterClear(port, v, PairBits(ep));
    return Ok;
  }

  /** The three writes of ResetTimestamp: all of them reach the register, or none
      does when writes to 0x0009 fail. */
  method PulseCounterClear(port: Port, v: bv16, m: bv32)
    modifies port
    ensures port.log == old(port.log) + Logged(port.writeFailing, ResetWrites(v, m))
    ensures port.regs == Apply(old(port.regs), Logged(port.writeFailing, ResetWrites(v, m)))
    ensures Env(port) == old(Env(port))
  {
    if CounterCtrl in port.writeFailing {
      assert ResetWrites(v, m)[0].addr in port.writeFailing;
      PulseRefused(port, v, m);
    } else {
      PulseAccepted(port, v, m);
    }
  }

  /** The three writes to a register that refuses writes: nothing changes. */
  method PulseRefused(port: Port, v: bv16, m: bv32)
    requires CounterCtrl in port.writeFailing
    modifies port
    ensures port.log == old(port.log) && port.regs == old(port.regs)
    ensures Env(port) == old(Env(port))
  {
    var low, high := ClearMask(v as bv32, m), SetMask(v as bv32, m);
    RefusedWrite(port, low);
    RefusedWrite(port, high);
    RefusedWrite(port, low);
  }

  /** One write to 0x0009 while its writes fail. */
  method RefusedWrite(port: Port, w: bv32)
    requires CounterCtrl in port.writeFailing
    modifies port
    ensures port.log == old(port.log) && port.regs == old(port.regs)
    ensures Env(port) == old(Env(port))
  {
    assert [Write(CounterCtrl, w)][0].addr in port.writeFailing;
    var ignored := port.WriteRegister(CounterCtrl, w);
  }

  /** The three writes to a register that accepts them. */
  method PulseAccepted(port: Port, v: bv16, m: bv32)
    requires CounterCtrl !in port.writeFailing
    modifies port
    ensures port.log == old(port.log) + ResetWrites(v, m)
    ensures port.regs == Apply(old(port.regs), ResetWrites(v, m))
    ensures Env(port) == old(Env(port))
  {
    var low, high := ClearMask(v as bv32, m), SetMask(v as bv32, m);
    var ignored := port.WriteRegister(CounterCtrl, low);
    assert Logged(port.writeFailing, [Write(CounterCtrl, low)]) == [Write(CounterCtrl, low)];
    ignored := port.WriteRegister(CounterCtrl, high);
    assert Logged(port.writeFailing, [Write(CounterCtrl, high)]) == [Write(CounterCtrl, high)];
    ignored := port.WriteRegister(CounterCtrl, low);
    ghost var ws := [Write(CounterCtrl, low), Write(CounterCtrl, high), Write(CounterCtrl, low)];
    assert ws == ResetWrites(v, m);
    assert ws[..1] == [ws[0]];
    ApplyAppend(old(port.regs), ws[..1], ws[1]);
    assert ws[..2] == ws[..1] + [ws[1]];
    ApplyAppend(old(port.regs), ws[..2], ws[2]);
    assert ws == ws[..2] + [ws[2]];
  }

  /** Starting then stopping an endpoint with nothing in between leaves 0x000A with
      the endpoint's two bits clear and every other bit as it was. */
  lemma StartThenStop(v: bv16, m: bv32, pair: bv32)
    requires m & pair == m
    ensures var w := ClearMask(SetMask(v as bv32, m), pair);
            w & pair == 0 && w & !pair == (v as bv32) & !pair
  {
  }
}
