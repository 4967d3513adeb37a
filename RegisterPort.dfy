/** The connection the FPGA routines talk to (IConnection), reduced to what they use:
    a register file addressed by number, the ordered record of every write that
    reached it, the addresses whose reads fail and those whose writes fail, whether
    the port is open and whether the board is a LimeSDR-QPCIe. What the hardware does over time is
    supplied up front: the successive readings of the busy register while a routine
    waits, and the byte blocks the raw-stream reads return. */
module RegisterPort {
  import opened Base

  /** One register write: a (address, value) pair of the addrs/values vectors. */
  datatype Write = Write(addr: nat, value: bv32)

  /** One reading of the busy register 0x0021 during a wait: the 16-bit status word
      and the time elapsed since the wait began, in milliseconds. */
  datatype BusySample = BusySample(word: bv16, elapsedMs: nat)

  /** The three-second limit of every busy wait. */
  const TimeoutMs: nat := 3000

  /** The register file after a sequence of writes, applied in order. */
  function Apply(regs: map<nat, bv32>, ws: seq<Write>): map<nat, bv32>
    decreases |ws|
  {
    if ws == [] then regs else Apply(regs[ws[0].addr := ws[0].value], ws[1..])
  }

  /** The value of the last write to addr in ws, if there is one. */
  function LastWrite(ws: seq<Write>, addr: nat): Option<bv32>
    decreases |ws|
  {
    if ws == [] then None
    else if ws[|ws| - 1].addr == addr then Some(ws[|ws| - 1].value)
    else LastWrite(ws[..|ws| - 1], addr)
  }

  lemma {:induction false} ApplyAppend(regs: map<nat, bv32>, ws: seq<Write>, w: Write)
    ensures Apply(regs, ws + [w]) == Apply(regs, ws)[w.addr := w.value]
    decreases |ws|
  {
    if ws != [] {
      assert (ws + [w])[1..] == ws[1..] + [w];
      ApplyAppend(regs[ws[0].addr := ws[0].value], ws[1..], w);
    }
  }

  lemma {:induction false} ApplyConcat(regs: map<nat, bv32>, ws: seq<Write>, vs: seq<Write>)
    ensures Apply(regs, ws + vs) == Apply(Apply(regs, ws), vs)
    decreases |ws|
  {
    if ws == [] {
      assert ws + vs == vs;
    } else {
      assert (ws + vs)[0] == ws[0];
      assert (ws + vs)[1..] == ws[1..] + vs;
      ApplyConcat(regs[ws[0].addr := ws[0].value], ws[1..], vs);
    }
  }

  /** Applying a batch leaves each register holding its last write, and every
      register the batch does not write as it was. */
  lemma {:induction false} ApplyIsLastWrite(regs: map<nat, bv32>, ws: seq<Write>, addr: nat)
    ensures LastWrite(ws, addr).Some? ==>
              addr in Apply(regs, ws) && Apply(regs, ws)[addr] == LastWrite(ws, addr).value
    ensures LastWrite(ws, addr).None? ==>
              (addr in Apply(regs, ws) <==> addr in regs) &&
              (addr in regs ==> Apply(regs, ws)[addr] == regs[addr])
    decreases |ws|
  {
    if ws != [] {
      var init, w := ws[..|ws| - 1], ws[|ws| - 1];
      assert ws == init + [w];
      ApplyAppend(regs, init, w);
      ApplyIsLastWrite(regs, init, addr);
    }
  }

  /** The content of register addr in regs; a register never written reads as zero. */
  function ValueOf(regs: map<nat, bv32>, addr: nat): bv32
  {
    if addr in regs then regs[addr] else 0
  }

  /** Whether a batch goes through: none of its addresses fails. */
  predicate Accepted(failing: set<nat>, ws: seq<Write>)
  {
    forall i :: 0 <= i < |ws| ==> ws[i].addr !in failing
  }

  /** What a batch leaves in the write record: all of it, or nothing. */
  function Logged(failing: set<nat>, ws: seq<Write>): seq<Write>
  {
    if Accepted(failing, ws) then ws else []
  }

  /** The lower 16 bits of a register, as a uint16_t read returns them. */
  function Low16(w: bv32): bv16
  {
    (w & 0xFFFF) as bv16
  }

  /** The next busy reading; once the supplied readings are used up the wait has run
      past its limit. */
  function NextBusy(busy: seq<BusySample>): BusySample
  {
    if busy == [] then BusySample(0, TimeoutMs + 1) else busy[0]
  }

  function RestBusy(busy: seq<BusySample>): seq<BusySample>
  {
    if busy == [] then [] else busy[1..]
  }

  /** What no routine changes: the failing addresses, whether the port is open, and
      the board type. */
  function Setting(p: Port): (set<nat>, set<nat>, bool, bool)
    reads p
  {
    (p.readFailing, p.writeFailing, p.isOpen, p.isQPCIe)
  }

  class Port {
    var regs: map<nat, bv32>
    var log: seq<Write>
    var readFailing: set<nat>
    var writeFailing: set<nat>
    var isOpen: bool
    var isQPCIe: bool
    var busy: seq<BusySample>
    var rawReads: seq<seq<byte>>

    constructor (regs0: map<nat, bv32>, readFailing0: set<nat>, writeFailing0: set<nat>,
                 isOpen0: bool, isQPCIe0: bool, busy0: seq<BusySample>, rawReads0: seq<seq<byte>>)
      ensures regs == regs0 && log == [] && readFailing == readFailing0
      ensures writeFailing == writeFailing0 && isOpen == isOpen0
      ensures isQPCIe == isQPCIe0 && busy == busy0 && rawReads == rawReads0
    {
      regs, log, readFailing, writeFailing := regs0, [], readFailing0, writeFailing0;
      isOpen, isQPCIe := isOpen0, isQPCIe0;
      busy, rawReads := busy0, rawReads0;
    }

    /** The register's content; a register never written reads as zero. */
    function Value(addr: nat): bv32
      reads this
    {
      ValueOf(regs, addr)
    }

    /** ReadRegister(addr, uint16_t&): the lower half of the register, or a failure
        status with the destination left at zero. */
    method ReadRegister(addr: nat) returns (status: Status, value: bv16)
      ensures addr in readFailing ==> status == Err(PortFailure) && value == 0
      ensures addr !in readFailing ==> status == Ok && value == Low16(Value(addr))
    {
      if addr in readFailing {
        return Err(PortFailure), 0;
      }
      return Ok, Low16(Value(addr));
    }

    /** WriteRegister(addr, value). */
    method WriteRegister(addr: nat, value: bv32) returns (status: Status)
      modifies this
      ensures status == if addr in writeFailing then Err(PortFailure) else Ok
      ensures log == old(log) + Logged(writeFailing, [Write(addr, value)])
      ensures regs == Apply(old(regs), Logged(writeFailing, [Write(addr, value)]))
      ensures Setting(this) == old(Setting(this))
      ensures busy == old(busy) && rawReads == old(rawReads)
    {
      if addr in writeFailing {
        assert [Write(addr, value)][0].addr in writeFailing;
        return Err(PortFailure);
      }
      regs := regs[addr := value];
      log := log + [Write(addr, value)];
      assert Apply(old(regs), [Write(addr, value)]) == regs;
      return Ok;
    }

    /** WriteRegisters(addrs, values, count): the batch is written in order, or is
        refused as a whole when one of its addresses fails. */
    method WriteRegisters(ws: seq<Write>) returns (status: Status)
      modifies this
      ensures status == if Accepted(writeFailing, ws) then Ok else Err(PortFailure)
      ensures log == old(log) + Logged(writeFailing, ws)
      ensures regs == Apply(old(regs), Logged(writeFailing, ws))
      ensures Setting(this) == old(Setting(this))
      ensures busy == old(busy) && rawReads == old(rawReads)
    {
      if !Accepted(writeFailing, ws) {
        return Err(PortFailure);
      }
      var i := 0;
      while i < |ws|
        invariant 0 <= i <= |ws|
        invariant log == old(log) + ws[..i]
        invariant regs == Apply(old(regs), ws[..i])
        invariant Setting(this) == old(Setting(this))
        invariant busy == old(busy) && rawReads == old(rawReads)
      {
        ApplyAppend(old(regs), ws[..i], ws[i]);
        assert ws[..i + 1] == ws[..i] + [ws[i]];
        regs := regs[ws[i].addr := ws[i].value];
        log := log + [ws[i]];
        i := i + 1;
      }
      assert ws[..i] == ws;
      return Ok;
    }

    /** One read of the busy register during a wait. */
    method ReadBusy() returns (s: BusySample)
      modifies this
      ensures s == NextBusy(old(busy)) && busy == RestBusy(old(busy))
      ensures regs == old(regs) && log == old(log) && Setting(this) == old(Setting(this))
      ensures rawReads == old(rawReads)
    {
      s := NextBusy(busy);
      busy := RestBusy(busy);
    }

    /** ReceiveData on the capture stream: the bytes one raw capture delivered
        (possibly fewer than asked for, none once the supplied captures are used up). */
    method ReceiveData(length: nat) returns (data: seq<byte>)
      modifies this
      ensures |data| <= length
      ensures old(rawReads) == [] ==> data == [] && rawReads == []
      ensures old(rawReads) != [] ==>
                data == (if |old(rawReads)[0]| <= length then old(rawReads)[0] else old(rawReads)[0][..length])
                && rawReads == old(rawReads)[1..]
      ensures regs == old(regs) && log == old(log) && Setting(this) == old(Setting(this))
      ensures busy == old(busy)
    {
      if rawReads == [] {
        return [];
      }
      data := rawReads[0];
      if |data| > length {
        data := data[..length];
      }
      rawReads := rawReads[1..];
    }
  }
}
