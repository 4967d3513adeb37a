/** ReadRawStreamData of the Xillybus connection (ConnectionXillybusing.cpp): the
    raw capture the phase search of SetPllFrequency takes after every phase step.
    It stops the endpoint, writes the capture set-up words, starts the endpoint,
    receives one block and stops the endpoint again, ignoring every status. */
module RawCapture {
  import opened Base
  import opened RegisterPort
  import opened FpgaStreaming

  /** The two set-up registers the capture writes, and the words it writes there. */
  const SampleFormatReg: nat := 0x0008
  const ChannelEnableReg: nat := 0x0007
  const SampleFormat: bv32 := 0x0102
  const ChannelEnable: bv32 := 1

  /** The write of one StopStreaming call on the register file regs. */
  function StopStep(regs: map<nat, bv32>, readFailing: set<nat>, writeFailing: set<nat>, ep: nat): (r: seq<Write>)
    requires ValidEndpoint(ep)
    ensures |r| <= 1 && forall i | 0 <= i < |r| :: r[i].addr == InterfaceCtrl
  {
    if InterfaceCtrl in readFailing then []
    else Logged(writeFailing, [Write(InterfaceCtrl, StopWord(Low16(ValueOf(regs, InterfaceCtrl)), ep))])
  }

  /** The write of one StartStreaming call on the register file regs. */
  function StartStep(regs: map<nat, bv32>, readFailing: set<nat>, writeFailing: set<nat>, ep: nat): (r: seq<Write>)
    requires ValidEndpoint(ep)
    ensures |r| <= 1 && forall i | 0 <= i < |r| :: r[i].addr == InterfaceCtrl
  {
    if InterfaceCtrl in readFailing then []
    else Logged(writeFailing, [Write(InterfaceCtrl, StartWord(Low16(ValueOf(regs, InterfaceCtrl)), ep))])
  }

  /** The two set-up writes, each refused on its own when its register fails. */
  function SetupWrites(writeFailing: set<nat>): (r: seq<Write>)
    ensures forall i | 0 <= i < |r| :: r[i].addr == SampleFormatReg || r[i].addr == ChannelEnableReg
  {
    Logged(writeFailing, [Write(SampleFormatReg, SampleFormat)])
    + Logged(writeFailing, [Write(ChannelEnableReg, ChannelEnable)])
  }

  /** Every write one capture makes, in order: stop, set-up, start, stop. */
  function CaptureWrites(regs: map<nat, bv32>, readFailing: set<nat>, writeFailing: set<nat>, ep: nat)
    : seq<Write>
    requires ValidEndpoint(ep)
  {
    var stop := StopStep(regs, readFailing, writeFailing, ep);
    var regs1 := Apply(regs, stop + SetupWrites(writeFailing));
    var start := StartStep(regs1, readFailing, writeFailing, ep);
    stop + SetupWrites(writeFailing) + start
    + StopStep(Apply(regs1, start), readFailing, writeFailing, ep)
  }

  /** The registers a capture may write. */
  predicate CaptureRegistersOnly(ws: seq<Write>)
  {
    forall i | 0 <= i < |ws| ::
      ws[i].addr == InterfaceCtrl || ws[i].addr == SampleFormatReg || ws[i].addr == ChannelEnableReg
  }

  /** A capture writes the interface control and the two set-up registers only. */
  lemma CaptureWritesRegisters(regs: map<nat, bv32>, readFailing: set<nat>, writeFailing: set<nat>, ep: nat)
    requires ValidEndpoint(ep)
    ensures CaptureRegistersOnly(CaptureWrites(regs, readFailing, writeFailing, ep))
  {
  }

  /** When 0x000A can be read and written, a capture leaves the endpoint stopped:
      its last write to 0x000A clears both of the endpoint's bits. And the set-up
      registers hold the set-up words when their writes go through. */
  lemma CaptureEndsStopped(regs: map<nat, bv32>, readFailing: set<nat>, writeFailing: set<nat>, ep: nat)
    requires ValidEndpoint(ep) && InterfaceCtrl !in readFailing && InterfaceCtrl !in writeFailing
    ensures var after := Apply(regs, CaptureWrites(regs, readFailing, writeFailing, ep));
            ValueOf(after, InterfaceCtrl) & PairBits(ep) == 0
            && (SampleFormatReg !in writeFailing ==> ValueOf(after, SampleFormatReg) == SampleFormat)
            && (ChannelEnableReg !in writeFailing ==> ValueOf(after, ChannelEnableReg) == ChannelEnable)
  {
    var ws := CaptureWrites(regs, readFailing, writeFailing, ep);
    var regs1 := Apply(regs, StopStep(regs, readFailing, writeFailing, ep) + SetupWrites(writeFailing));
    var start := StartStep(regs1, readFailing, writeFailing, ep);
    var last := StopStep(Apply(regs1, start), readFailing, writeFailing, ep);
    var w := StopWord(Low16(ValueOf(Apply(regs1, start), InterfaceCtrl)), ep);
    assert last == [Write(InterfaceCtrl, w)];
    assert ws[|ws| - 1] == Write(InterfaceCtrl, w);
    ApplyIsLastWrite(regs, ws, InterfaceCtrl);
    if SampleFormatReg !in writeFailing {
      LastSetupWrite(ws, |StopStep(regs, readFailing, writeFailing, ep)|, SampleFormatReg, SampleFormat);
      ApplyIsLastWrite(regs, ws, SampleFormatReg);
    }
    if ChannelEnableReg !in writeFailing {
      var k := |StopStep(regs, readFailing, writeFailing, ep)|
               + |Logged(writeFailing, [Write(SampleFormatReg, SampleFormat)])|;
      LastSetupWrite(ws, k, ChannelEnableReg, ChannelEnable);
      ApplyIsLastWrite(regs, ws, ChannelEnableReg);
    }
  }

  /** The last write to addr is at index k when nothing after k writes addr. */
  lemma {:induction false} LastSetupWrite(ws: seq<Write>, k: nat, addr: nat, value: bv32)
    requires k < |ws| && ws[k] == Write(addr, value)
    requires forall j | k < j < |ws| :: ws[j].addr != addr
    ensures LastWrite(ws, addr) == Some(value)
    decreases |ws|
  {
    if k < |ws| - 1 {
      LastSetupWrite(ws[..|ws| - 1], k, addr, value);
    }
  }

  /** ReadRawStreamData(buffer, length, epIndex, timeout): the block received is the
      next supplied capture cut to length, and the register file sees the capture's
      writes; nothing else about the port changes. The host-side calls
      ResetStreamBuffers and AbortReading touch no register. */
  method ReadRawStreamData(port: Port, length: nat, ep: nat) returns (data: seq<byte>)
    requires ValidEndpoint(ep)
    modifies port
    ensures |data| <= length
    ensures old(port.rawReads) == [] ==> data == [] && port.rawReads == []
    ensures old(port.rawReads) != [] ==>
              data == (if |old(port.rawReads)[0]| <= length then old(port.rawReads)[0]
                       else old(port.rawReads)[0][..length])
              && port.rawReads == old(port.rawReads)[1..]
    ensures var ws := CaptureWrites(old(port.regs), port.readFailing, port.writeFailing, ep);
            port.log == old(port.log) + ws && port.regs == Apply(old(port.regs), ws)
    ensures Setting(port) == old(Setting(port)) && port.busy == old(port.busy)
  {
    ghost var log0, regs0 := port.log, port.regs;
    PrepareCapture(port, ep);
    ghost var log1, regs1 := port.log, port.regs;
    data := StartAndReceive(port, length, ep);
    ghost var log2, regs2 := port.log, port.regs;
    var ignored := StopStreaming(port, ep);
    CaptureSteps(log0, regs0, port.readFailing, port.writeFailing, ep, log1, regs1, log2, regs2, port.log, port.regs);
  }

  /** The middle of the capture: start the endpoint and receive one block. */
  method StartAndReceive(port: Port, length: nat, ep: nat) returns (data: seq<byte>)
    requires ValidEndpoint(ep)
    modifies port
    ensures |data| <= length
    ensures old(port.rawReads) == [] ==> data == [] && port.rawReads == []
    ensures old(port.rawReads) != [] ==>
              data == (if |old(port.rawReads)[0]| <= length then old(port.rawReads)[0]
                       else old(port.rawReads)[0][..length])
              && port.rawReads == old(port.rawReads)[1..]
    ensures var ws := StartStep(old(port.regs), port.readFailing, port.writeFailing, ep);
            port.log == old(port.log) + ws && port.regs == Apply(old(port.regs), ws)
    ensures Setting(port) == old(Setting(port)) && port.busy == old(port.busy)
  {
    var ignored := StartStreaming(port, ep);
    data := port.ReceiveData(length);
  }

  /** CaptureWrites is the writes of its three parts, each computed on the register
      file the previous parts left. */
  lemma CaptureSteps(log0: seq<Write>, regs0: map<nat, bv32>, readFailing: set<nat>, writeFailing: set<nat>,
                     ep: nat, log1: seq<Write>, regs1: map<nat, bv32>, log2: seq<Write>, regs2: map<nat, bv32>,
                     log3: seq<Write>, regs3: map<nat, bv32>)
    requires ValidEndpoint(ep)
    requires var first := StopStep(regs0, readFailing, writeFailing, ep) + SetupWrites(writeFailing);
             log1 == log0 + first && regs1 == Apply(regs0, first)
    requires var start := StartStep(regs1, readFailing, writeFailing, ep);
             log2 == log1 + start && regs2 == Apply(regs1, start)
    requires var last := StopStep(regs2, readFailing, writeFailing, ep);
             log3 == log2 + last && regs3 == Apply(regs2, last)
    ensures log3 == log0 + CaptureWrites(regs0, readFailing, writeFailing, ep)
    ensures regs3 == Apply(regs0, CaptureWrites(regs0, readFailing, writeFailing, ep))
  {
    var first := StopStep(regs0, readFailing, writeFailing, ep) + SetupWrites(writeFailing);
    var start := StartStep(regs1, readFailing, writeFailing, ep);
    var last := StopStep(regs2, readFailing, writeFailing, ep);
    CaptureIsParts(regs0, readFailing, writeFailing, ep, regs1, regs2);
    ThreeBatches(log0, regs0, first, start, last, log1, regs1, log2, regs2, log3, regs3);
  }

  lemma CaptureIsParts(regs0: map<nat, bv32>, readFailing: set<nat>, writeFailing: set<nat>, ep: nat,
                       regs1: map<nat, bv32>, regs2: map<nat, bv32>)
    requires ValidEndpoint(ep)
    requires regs1 == Apply(regs0, StopStep(regs0, readFailing, writeFailing, ep) + SetupWrites(writeFailing))
    requires regs2 == Apply(regs1, StartStep(regs1, readFailing, writeFailing, ep))
    ensures CaptureWrites(regs0, readFailing, writeFailing, ep)
            == StopStep(regs0, readFailing, writeFailing, ep) + SetupWrites(writeFailing)
               + StartStep(regs1, readFailing, writeFailing, ep) + StopStep(regs2, readFailing, writeFailing, ep)
  {
  }

  /** Three batches applied one after another act as their concatenation. */
  lemma ThreeBatches(log0: seq<Write>, regs0: map<nat, bv32>, a: seq<Write>, b: seq<Write>, c: seq<Write>,
                     log1: seq<Write>, regs1: map<nat, bv32>, log2: seq<Write>, regs2: map<nat, bv32>,
                     log3: seq<Write>, regs3: map<nat, bv32>)
    requires log1 == log0 + a && regs1 == Apply(regs0, a)
    requires log2 == log1 + b && regs2 == Apply(regs1, b)
    requires log3 == log2 + c && regs3 == Apply(regs2, c)
    ensures log3 == log0 + (a + b + c) && regs3 == Apply(regs0, a + b + c)
  {
    ApplyConcat(regs0, a, b);
    ApplyConcat(regs0, a + b, c);
  }

  /** The part before the start: stop the endpoint and write the set-up words. */
  method PrepareCapture(port: Port, ep: nat)
    requires ValidEndpoint(ep)
    modifies port
    ensures var ws := StopStep(old(port.regs), port.readFailing, port.writeFailing, ep)
                      + SetupWrites(port.writeFailing);
            port.log == old(port.log) + ws && port.regs == Apply(old(port.regs), ws)
    ensures Env(port) == old(Env(port))
  {
    ghost var stop := StopStep(port.regs, port.readFailing, port.writeFailing, ep);
    var ignored := StopStreaming(port, ep);
    ghost var regs0 := port.regs;
    ignored := port.WriteRegister(SampleFormatReg, SampleFormat);
    ignored := port.WriteRegister(ChannelEnableReg, ChannelEnable);
    SetupApplied(old(port.regs), stop, port.writeFailing);
  }

  /** The two set-up writes, one after the other, act as their batch. */
  lemma SetupApplied(regs: map<nat, bv32>, stop: seq<Write>, writeFailing: set<nat>)
    ensures var a := Logged(writeFailing, [Write(SampleFormatReg, SampleFormat)]);
            var b := Logged(writeFailing, [Write(ChannelEnableReg, ChannelEnable)]);
            Apply(Apply(Apply(regs, stop), a), b) == Apply(regs, stop + SetupWrites(writeFailing))
  {
    var a := Logged(writeFailing, [Write(SampleFormatReg, SampleFormat)]);
    var b := Logged(writeFailing, [Write(ChannelEnableReg, ChannelEnable)]);
    ApplyConcat(regs, stop, a + b);
    ApplyConcat(Apply(regs, stop), a, b);
  }
}
