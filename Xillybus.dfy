/** The per-batch bookkeeping of the Xillybus streaming loops
    (ConnectionXillybusing.cpp): the receive loop's header scan with its loss,
    late-transmit and overrun counters, the transmit loop's packet headers, and the
    test that decides whether the interface clock's phase is searched. The threads,
    the transport calls and the sample queues are inputs: what ReceiveData and
    SendData returned, the packet headers received, what each queue write accepted
    and what each queue read delivered. */
module Xillybus {
  import opened Base
  import opened SampleCodec
  import opened Arith

  /** sizeof(FPGA_DataPacket): 8 reserved bytes, a 64-bit counter, 4080 payload
      bytes. */
  const PacketBytes: nat := 4096
  const PayloadBytes: nat := 4080
  /** The receive loop's initial resetFlagsDelay. */
  const InitialResetDelay: int := 128

  function Pow2(k: nat): (p: nat)
    ensures p >= 1
  {
    if k == 0 then 1 else 2 * Pow2(k - 1)
  }

  /** packetsToBatch = (1 << tmp_cnt) narrowed to uint8_t. */
  function PacketsToBatch(tmpCnt: nat): (p: nat)
    requires tmpCnt < 31
    ensures p < 0x100
  {
    Pow2(tmpCnt) % 0x100
  }

  /** For latencies that give eight or fewer doublings the batch holds 2^tmp_cnt
      packets; from tmp_cnt = 8 on the uint8_t narrowing leaves none. */
  lemma {:induction false} PacketsToBatchRange(tmpCnt: nat)
    requires tmpCnt < 31
    ensures tmpCnt < 8 ==> PacketsToBatch(tmpCnt) == Pow2(tmpCnt) && 1 <= PacketsToBatch(tmpCnt) <= 128
    ensures tmpCnt >= 8 ==> PacketsToBatch(tmpCnt) == 0
  {
    Pow2Bound(tmpCnt);
    if tmpCnt >= 8 {
      Pow2Multiple(tmpCnt);
    }
  }

  lemma Pow2Bound(k: nat)
    ensures k < 8 ==> Pow2(k) <= 128
  {
    assert Pow2(1) == 2 && Pow2(2) == 4 && Pow2(3) == 8 && Pow2(4) == 16;
    assert Pow2(5) == 32 && Pow2(6) == 64 && Pow2(7) == 128;
  }

  lemma {:induction false} Pow2Multiple(k: nat)
    requires k >= 8
    ensures Pow2(k) % 0x100 == 0
    decreases k
  {
    if k == 8 {
      assert Pow2(1) == 2 && Pow2(2) == 4 && Pow2(3) == 8 && Pow2(4) == 16;
      assert Pow2(5) == 32 && Pow2(6) == 64 && Pow2(7) == 128 && Pow2(8) == 256;
    } else {
      Pow2Multiple(k - 1);
      var q := Pow2(k - 1) / 0x100;
      assert Pow2(k - 1) == 0x100 * q;
      assert Pow2(k) == 0x100 * (2 * q);
    }
  }

  /** Samples per packet per channel, the same on the receive and the transmit
      side: 1360/chCount for the 12-bit packed format and 1020/chCount otherwise. */
  function SamplesInPacket(f: Format, chCount: nat): nat
    requires chCount > 0
  {
    (if f.Packed12? then 1360 else 1020) / chCount
  }

  /** For one or two channels the codec decodes exactly that many samples per
      channel from a packet's payload. */
  lemma SamplesInPacketMatchesCodec(f: Format, chCount: nat)
    requires Supported(f) && 1 <= chCount <= 2
    ensures DecodedCount(f, chCount, PayloadBytes) == SamplesInPacket(f, chCount)
  {
  }

  // ---------------------------------------------------------------------------
  // Receive side

  /** A received packet's header: reserved[0] and the 64-bit sample counter. */
  datatype RxPacket = RxPacket(reserved0: byte, counter: nat)

  /** The receive loop's counters: m_bufferFailures, droppedSamples and packetLoss
      (int32_t), prevTs (uint64_t), the stream's rxLastTimestamp, resetFlagsDelay,
      how many times the flag-reset worker was notified, and totalBytesReceived. */
  datatype RxCounters = RxCounters(failures: nat, dropped: int, loss: int, prevTs: nat, lastTimestamp: nat,
                                   resetFlagsDelay: int, notifications: nat, totalBytes: nat)

  /** The loop's constants: samplesInPacket, packetsToBatch and the decoder's
      samplesCount per packet. */
  datatype RxSetup = RxSetup(samplesInPacket: nat, packetsToBatch: nat, samplesCount: nat)

  predicate ValidSetup(s: RxSetup)
  {
    0 < s.samplesInPacket < TWO32
  }

  predicate LateBit(p: RxPacket)
  {
    (p.reserved0 as int / 8) % 2 == 1
  }

  /** The counters at the start of the loop. */
  function InitialCounters(): RxCounters
  {
    RxCounters(0, 0, 0, 0, 0, InitialResetDelay, 0, 0)
  }

  /** The late-transmit cool-down: count down while positive; at zero, notify the
      worker and restart from 2*packetsToBatch. */
  function LateStep(c: RxCounters, ptb: nat): RxCounters
  {
    if c.resetFlagsDelay > 0 then c.(resetFlagsDelay := c.resetFlagsDelay - 1)
    else c.(resetFlagsDelay := 2 * ptb, notifications := c.notifications + 1)
  }

  /** Loss accounting for one counter: a jump that is neither 0 nor samplesInPacket
      adds (counter - prevTs)/samplesInPacket, in uint64_t, narrowed into the int32_t
      total. */
  function LossAfter(loss: int, prevTs: nat, counter: nat, sip: nat): int
    requires 0 < sip && prevTs < TWO64 && counter < TWO64
  {
    var d := Sub64(counter, prevTs);
    if d != sip && counter != prevTs then Wrap32(loss + d / sip) else loss
  }

  /** Overrun accounting for one packet: every channel that accepted fewer than
      samplesCount samples adds the shortfall (size_t arithmetic, narrowed into the
      int32_t total). */
  function DropAfter(d: int, count: nat, pushed: seq<nat>): int
    decreases |pushed|
  {
    if pushed == [] then d
    else
      var d' := DropAfter(d, count, pushed[..|pushed| - 1]);
      if pushed[|pushed| - 1] != count then Wrap32(d' + count - pushed[|pushed| - 1]) else d'
  }

  /** The packet loop body: the late flag (once per batch), the loss accounting, the
      timestamps, and the overrun accounting of the packet's queue writes. */
  function PacketStep(c: RxCounters, late: bool, p: RxPacket, pushed: seq<nat>, s: RxSetup): (RxCounters, bool)
    requires ValidSetup(s) && c.prevTs < TWO64 && p.counter < TWO64
  {
    var (c1, late1) := if LateBit(p) && !late then (LateStep(c, s.packetsToBatch), true) else (c, late);
    var c2 := c1.(loss := LossAfter(c1.loss, c1.prevTs, p.counter, s.samplesInPacket),
                  prevTs := p.counter, lastTimestamp := p.counter);
    (c2.(dropped := DropAfter(c2.dropped, s.samplesCount, pushed)), late1)
  }

  predicate CountersFit(ps: seq<RxPacket>)
  {
    forall k | 0 <= k < |ps| :: ps[k].counter < TWO64
  }

  /** The packet loop over a batch: the counters and the txLate flag after it. */
  function Scan(c: RxCounters, ps: seq<RxPacket>, rows: seq<seq<nat>>, s: RxSetup): (r: (RxCounters, bool))
    requires ValidSetup(s) && c.prevTs < TWO64 && CountersFit(ps) && |rows| == |ps|
    ensures r.0.prevTs < TWO64
    decreases |ps|
  {
    if ps == [] then (c, false)
    else
      var l := |ps| - 1;
      var (c', late) := Scan(c, ps[..l], rows[..l], s);
      PacketStep(c', late, ps[l], rows[l], s)
  }

  /** One pass of the receive loop: account the read, scan its packets, and clear
      the per-second counters when a second has passed. */
  function BatchOutcome(c: RxCounters, bytesReceived: nat, ps: seq<RxPacket>, rows: seq<seq<nat>>,
                        s: RxSetup, secondElapsed: bool): RxCounters
    requires ValidSetup(s) && c.prevTs < TWO64 && CountersFit(ps) && |rows| == |ps|
  {
    var c1 := c.(totalBytes := c.totalBytes + bytesReceived,
                 failures := if bytesReceived != s.packetsToBatch * PacketBytes then c.failures + 1 else c.failures);
    var c2 := Scan(c1, ps, rows, s).0;
    if secondElapsed then c2.(totalBytes := 0, failures := 0, dropped := 0, loss := 0) else c2
  }

  /** The channel loop of one packet: each queue write that fell short adds its
      shortfall to droppedSamples. */
  method AccountDrops(d: int, count: nat, pushed: seq<nat>) returns (d': int)
    ensures d' == DropAfter(d, count, pushed)
  {
    d' := d;
    var ch := 0;
    while ch < |pushed|
      invariant 0 <= ch <= |pushed|
      invariant d' == DropAfter(d, count, pushed[..ch])
    {
      assert pushed[..ch + 1][..ch] == pushed[..ch];
      if pushed[ch] != count {
        d' := Wrap32(d' + count - pushed[ch]);
      }
      ch := ch + 1;
    }
    assert pushed[..ch] == pushed;
  }

  /** The body of the packet loop. */
  method ReceivePacket(c: RxCounters, txLate: bool, p: RxPacket, pushed: seq<nat>, s: RxSetup)
    returns (c': RxCounters, txLate': bool)
    requires ValidSetup(s) && c.prevTs < TWO64 && p.counter < TWO64
    ensures (c', txLate') == PacketStep(c, txLate, p, pushed, s)
  {
    c', txLate' := c, txLate;
    if LateBit(p) && !txLate' {
      txLate' := true;
      if c'.resetFlagsDelay > 0 {
        c' := c'.(resetFlagsDelay := c'.resetFlagsDelay - 1);
      } else {
        c' := c'.(notifications := c'.notifications + 1, resetFlagsDelay := s.packetsToBatch * 2);
      }
    }
    var d := Sub64(p.counter, c'.prevTs);
    if d != s.samplesInPacket && p.counter != c'.prevTs {
      c' := c'.(loss := Wrap32(c'.loss + d / s.samplesInPacket));
    }
    c' := c'.(prevTs := p.counter, lastTimestamp := p.counter);
    var dropped := AccountDrops(c'.dropped, s.samplesCount, pushed);
    c' := c'.(dropped := dropped);
  }

  /** The packet loop of one pass, over the whole packets that arrived. */
  method ScanPackets(c: RxCounters, ps: seq<RxPacket>, rows: seq<seq<nat>>, s: RxSetup)
    returns (c': RxCounters, txLate: bool)
    requires ValidSetup(s) && c.prevTs < TWO64 && CountersFit(ps) && |rows| == |ps|
    ensures (c', txLate) == Scan(c, ps, rows, s)
  {
    c', txLate := c, false;
    var k := 0;
    while k < |ps|
      invariant 0 <= k <= |ps|
      invariant (c', txLate) == Scan(c, ps[..k], rows[..k], s)
    {
      assert ps[..k + 1][..k] == ps[..k] && rows[..k + 1][..k] == rows[..k];
      c', txLate := ReceivePacket(c', txLate, ps[k], rows[k], s);
      k := k + 1;
    }
    assert ps[..k] == ps && rows[..k] == rows;
  }

  /** One pass of the receive loop (the synthetic-data branch aside). bytesReceived
      is what ReceiveData returned, ps the headers of its whole packets, rows[k][ch]
      what channel ch's queue accepted of packet k's samples. */
  method ReceiveBatch(c: RxCounters, bytesReceived: nat, ps: seq<RxPacket>, rows: seq<seq<nat>>,
                      s: RxSetup, secondElapsed: bool) returns (c': RxCounters)
    requires ValidSetup(s) && c.prevTs < TWO64 && CountersFit(ps)
    requires |ps| == bytesReceived / PacketBytes && |rows| == |ps|
    ensures c' == BatchOutcome(c, bytesReceived, ps, rows, s, secondElapsed)
  {
    c' := c.(totalBytes := c.totalBytes + bytesReceived);
    if bytesReceived != s.packetsToBatch * PacketBytes {
      c' := c'.(failures := c'.failures + 1);
    }
    var txLate;
    c', txLate := ScanPackets(c', ps, rows, s);
    if secondElapsed {
      c' := c'.(totalBytes := 0, failures := 0, dropped := 0, loss := 0);
    }
  }

  // ---------------------------------------------------------------------------
  // Properties of the receive bookkeeping

  /** The packet loop leaves the read accounting alone, and after a non-empty
      batch prevTs and rxLastTimestamp both hold the last packet's counter. */
  lemma {:induction false} ScanTimestamps(c: RxCounters, ps: seq<RxPacket>, rows: seq<seq<nat>>, s: RxSetup)
    requires ValidSetup(s) && c.prevTs < TWO64 && CountersFit(ps) && |rows| == |ps|
    ensures var r := Scan(c, ps, rows, s).0;
            r.failures == c.failures && r.totalBytes == c.totalBytes
    ensures var r := Scan(c, ps, rows, s).0;
            ps != [] ==> r.prevTs == r.lastTimestamp == ps[|ps| - 1].counter
    ensures ps == [] ==> Scan(c, ps, rows, s).0 == c
    decreases |ps|
  {
    if ps != [] {
      var l := |ps| - 1;
      ScanTimestamps(c, ps[..l], rows[..l], s);
    }
  }

  /** A read of fewer bytes than the whole buffer counts one failure and the loop
      goes on with the packets it did get; a one-second period clears the rate
      counters, and nothing else clears them. */
  lemma BatchAccounting(c: RxCounters, bytesReceived: nat, ps: seq<RxPacket>, rows: seq<seq<nat>>,
                        s: RxSetup, secondElapsed: bool)
    requires ValidSetup(s) && c.prevTs < TWO64 && CountersFit(ps) && |rows| == |ps|
    ensures var r := BatchOutcome(c, bytesReceived, ps, rows, s, secondElapsed);
            secondElapsed ==> r.failures == 0 && r.totalBytes == 0 && r.dropped == 0 && r.loss == 0
    ensures var r := BatchOutcome(c, bytesReceived, ps, rows, s, secondElapsed);
            !secondElapsed ==> r.totalBytes == c.totalBytes + bytesReceived &&
                               (r.failures == c.failures + 1 <==> bytesReceived != s.packetsToBatch * PacketBytes) &&
                               (r.failures == c.failures <==> bytesReceived == s.packetsToBatch * PacketBytes)
    ensures var r := BatchOutcome(c, bytesReceived, ps, rows, s, secondElapsed);
            ps != [] ==> r.prevTs == r.lastTimestamp == ps[|ps| - 1].counter
  {
    var c1 := c.(totalBytes := c.totalBytes + bytesReceived,
                 failures := if bytesReceived != s.packetsToBatch * PacketBytes then c.failures + 1 else c.failures);
    ScanTimestamps(c1, ps, rows, s);
  }

  /** The late flag is acted on once per batch at most: the cool-down advances by
      one step exactly when some packet of the batch has bit 3 of reserved[0] set. */
  lemma {:induction false} LateOncePerBatch(c: RxCounters, ps: seq<RxPacket>, rows: seq<seq<nat>>, s: RxSetup)
    requires ValidSetup(s) && c.prevTs < TWO64 && CountersFit(ps) && |rows| == |ps|
    ensures var (r, late) := Scan(c, ps, rows, s);
            late <==> exists k | 0 <= k < |ps| :: LateBit(ps[k])
    ensures var (r, late) := Scan(c, ps, rows, s);
            var e := if late then LateStep(c, s.packetsToBatch) else c;
            r.resetFlagsDelay == e.resetFlagsDelay && r.notifications == e.notifications
    decreases |ps|
  {
    if ps != [] {
      var l := |ps| - 1;
      LateOncePerBatch(c, ps[..l], rows[..l], s);
      assert forall k | 0 <= k < l :: ps[..l][k] == ps[k];
      if exists k | 0 <= k < |ps| :: LateBit(ps[k]) {
        var k :| 0 <= k < |ps| && LateBit(ps[k]);
        if k < l {
          assert LateBit(ps[..l][k]);
        }
      }
    }
  }

  /** The bound the late-transmit cool-down stays within: the larger of its start
      value and 2*packetsToBatch. */
  predicate DelayBounded(c: RxCounters, ptb: nat)
  {
    0 <= c.resetFlagsDelay <= (if InitialResetDelay >= 2 * ptb then InitialResetDelay else 2 * ptb)
  }

  /** The cool-down starts within its bound, and no pass of the receive loop takes it
      below zero or above the bound. */
  lemma DelayStaysBounded(c: RxCounters, bytesReceived: nat, ps: seq<RxPacket>, rows: seq<seq<nat>>,
                          s: RxSetup, secondElapsed: bool)
    requires ValidSetup(s) && c.prevTs < TWO64 && CountersFit(ps) && |rows| == |ps|
    requires DelayBounded(c, s.packetsToBatch)
    ensures DelayBounded(InitialCounters(), s.packetsToBatch)
    ensures DelayBounded(BatchOutcome(c, bytesReceived, ps, rows, s, secondElapsed), s.packetsToBatch)
  {
    var c1 := c.(totalBytes := c.totalBytes + bytesReceived,
                 failures := if bytesReceived != s.packetsToBatch * PacketBytes then c.failures + 1 else c.failures);
    LateOncePerBatch(c1, ps, rows, s);
  }

  /** The counter a packet of the batch is compared with: prevTs for the first,
      the previous packet's counter after that. */
  function Before(prevTs: nat, ps: seq<RxPacket>, k: nat): nat
    requires k < |ps|
  {
    if k == 0 then prevTs else ps[k - 1].counter
  }

  /** Every counter of the batch repeats the one before it or advances on it by
      exactly samplesInPacket. */
  predicate Steady(prevTs: nat, ps: seq<RxPacket>, sip: nat)
  {
    forall k | 0 <= k < |ps| :: ps[k].counter == Before(prevTs, ps, k) || ps[k].counter == Before(prevTs, ps, k) + sip
  }

  lemma SteadyPrefix(prevTs: nat, ps: seq<RxPacket>, sip: nat, l: nat)
    requires Steady(prevTs, ps, sip) && l <= |ps|
    ensures Steady(prevTs, ps[..l], sip)
  {
    forall k | 0 <= k < l
      ensures ps[..l][k].counter == Before(prevTs, ps[..l], k) || ps[..l][k].counter == Before(prevTs, ps[..l], k) + sip
    {
      assert Before(prevTs, ps[..l], k) == Before(prevTs, ps, k);
    }
  }

  /** A steady batch adds no loss. */
  lemma {:induction false} NoLossInOrder(c: RxCounters, ps: seq<RxPacket>, rows: seq<seq<nat>>, s: RxSetup)
    requires ValidSetup(s) && c.prevTs < TWO64 && CountersFit(ps) && |rows| == |ps|
    requires Steady(c.prevTs, ps, s.samplesInPacket)
    ensures Scan(c, ps, rows, s).0.loss == c.loss
    decreases |ps|
  {
    if ps != [] {
      var l := |ps| - 1;
      SteadyPrefix(c.prevTs, ps, s.samplesInPacket, l);
      NoLossInOrder(c, ps[..l], rows[..l], s);
      ScanTimestamps(c, ps[..l], rows[..l], s);
      var r := Scan(c, ps[..l], rows[..l], s).0;
      assert r.prevTs == Before(c.prevTs, ps, l);
    }
  }

  /** The sequence 0, S, 3S from prevTs = 0: the first two packets are in order,
      the third jumps by 2S and adds 2, although only one packet of S samples is
      missing. */
  lemma LossOfOneMissingPacket(sip: nat, rows: seq<seq<nat>>)
    requires 0 < sip < TWO32 && |rows| == 3
    ensures var s := RxSetup(sip, 1, 0);
            var ps := [RxPacket(0, 0), RxPacket(0, sip), RxPacket(0, 3 * sip)];
            Scan(InitialCounters(), ps, rows, s).0.loss == 2
  {
    var s := RxSetup(sip, 1, 0);
    var ps := [RxPacket(0, 0), RxPacket(0, sip), RxPacket(0, 3 * sip)];
    assert ps[..2][..1] == ps[..1] && rows[..2][..1] == rows[..1];
    assert ps[..2] == [RxPacket(0, 0), RxPacket(0, sip)];
    NoLossInOrder(InitialCounters(), ps[..2], rows[..2], s);
    ScanTimestamps(InitialCounters(), ps[..2], rows[..2], s);
    DivModUnique(2 * sip, sip, 2, 0);
  }

  /** The total shortfall of a packet's queue writes, without narrowing. */
  function Shortfall(count: nat, pushed: seq<nat>): int
    decreases |pushed|
  {
    if pushed == [] then 0 else Shortfall(count, pushed[..|pushed| - 1]) + (count - pushed[|pushed| - 1])
  }

  /** droppedSamples grows by samplesCount - samplesPushed for every channel,
      modulo 2^32; no shortfall, no change. */
  lemma {:induction false} DropAfterShortfall(d: int, count: nat, pushed: seq<nat>)
    requires -0x8000_0000 <= d < 0x8000_0000
    ensures DropAfter(d, count, pushed) == Wrap32(d + Shortfall(count, pushed))
    ensures (forall ch | 0 <= ch < |pushed| :: pushed[ch] == count) ==> DropAfter(d, count, pushed) == d
    decreases |pushed|
  {
    if pushed != [] {
      var l := |pushed| - 1;
      DropAfterShortfall(d, count, pushed[..l]);
      Wrap32Add(d + Shortfall(count, pushed[..l]), count - pushed[l]);
      assert forall ch | 0 <= ch < l :: pushed[..l][ch] == pushed[ch];
    }
  }

  // ---------------------------------------------------------------------------
  // Transmit side

  /** One packet slot of the transmit buffer: reserved[0], the counter and the
      4080 payload bytes (the other reserved bytes are never written). */
  datatype TxSlot = TxSlot(reserved0: byte, counter: nat, payload: seq<byte>)

  /** What one pass of the slot loop saw: the samples each channel's queue read
      delivered (as many as it popped), the metadata of the last channel's read (its
      timestamp and whether SYNC_TIMESTAMP was set), and whether terminateTx was set
      after the reads. */
  datatype TxPop = TxPop(delivered: seq<seq<Complex16>>, timestamp: nat, sync: bool, stop: bool)

  /** The transmit loop's counters: m_bufferFailures, totalBytesSent and the
      uint32_t samplesSent. */
  datatype TxCounters = TxCounters(failures: nat, totalBytes: nat, samplesSent: nat)

  /** samples[ch] after a queue read delivered d into it: a read fills the vector
      from its start, so the first |d| entries are the new samples and the rest are
      what earlier reads left there (a read never delivers more than the vector's
      maxSamplesBatch entries). */
  function Overwrite(v: seq<Complex16>, d: seq<Complex16>): (r: seq<Complex16>)
    ensures |r| == |v|
  {
    if |d| <= |v| then d + v[|d|..] else d[..|v|]
  }

  /** The persistent samples[] vectors after one pass's reads, channel by channel. */
  function Refill(vs: seq<seq<Complex16>>, ds: seq<seq<Complex16>>): (r: seq<seq<Complex16>>)
    ensures |r| == |vs|
  {
    seq(|vs|, c requires 0 <= c < |vs| => if c < |ds| then Overwrite(vs[c], ds[c]) else vs[c])
  }

  /** Entry k of channel c after the reads: the delivered sample where the read
      reached, the earlier one beyond it; a channel without a read keeps its
      vector, and every vector keeps its length. */
  lemma RefillContents(vs: seq<seq<Complex16>>, ds: seq<seq<Complex16>>, c: nat)
    requires c < |vs|
    ensures |Refill(vs, ds)[c]| == |vs[c]|
    ensures forall k | 0 <= k < |vs[c]| ::
              Refill(vs, ds)[c][k] == (if c < |ds| && k < |ds[c]| then ds[c][k] else vs[c][k])
  {
    if c < |ds| && |ds[c]| <= |vs[c]| {
      var d := ds[c];
      assert Refill(vs, ds)[c] == d + vs[c][|d|..];
    }
  }

  /** The vectors after the reads of the first n pops. */
  function VectorsAfter(vs: seq<seq<Complex16>>, pops: seq<TxPop>, n: nat): seq<seq<Complex16>>
    requires n <= |pops|
    decreases n
  {
    if n == 0 then vs else Refill(VectorsAfter(vs, pops, n - 1), pops[n - 1].delivered)
  }

  /** Every vector keeps its length: maxSamplesBatch, as the loop sized them. */
  predicate Sized(vs: seq<seq<Complex16>>, chCount: nat, maxSamples: nat)
  {
    |vs| == chCount && forall c | 0 <= c < chCount :: |vs[c]| == maxSamples
  }

  /** The vectors keep their shape through any number of pops. */
  lemma {:induction false} VectorsAfterSized(vs: seq<seq<Complex16>>, pops: seq<TxPop>, n: nat,
                                             chCount: nat, maxSamples: nat)
    requires n <= |pops| && Sized(vs, chCount, maxSamples)
    ensures Sized(VectorsAfter(vs, pops, n), chCount, maxSamples)
    decreases n
  {
    if n > 0 {
      VectorsAfterSized(vs, pops, n - 1, chCount, maxSamples);
      forall c | 0 <= c < chCount
        ensures |VectorsAfter(vs, pops, n)[c]| == maxSamples
      {
        RefillContents(VectorsAfter(vs, pops, n - 1), pops[n - 1].delivered, c);
      }
    }
  }

  /** A full read sends exactly what was popped; a short read of channel c sends
      the new samples followed by the tail the previous pop left in the vector. */
  lemma RefillSends(vs: seq<seq<Complex16>>, ds: seq<seq<Complex16>>, c: nat, k: nat)
    requires c < |vs| && c < |ds| && k < |vs[c]|
    ensures |ds[c]| >= |vs[c]| ==> Refill(vs, ds)[c][k] == ds[c][k]
    ensures k >= |ds[c]| ==> Refill(vs, ds)[c][k] == vs[c][k]
  {
    RefillContents(vs, ds, c);
  }

  /** A slot stamped from a pop: the counter is the popped timestamp, reserved[0]
      is cleared and then gets bit 4 when the timestamp is to be ignored, and the
      payload is the codec's encoding of the samples vectors over the old bytes. */
  function Stamped(prior: TxSlot, samples: seq<seq<Complex16>>, p: TxPop, f: Format, chCount: nat,
                   maxSamples: nat): (r: TxSlot)
    requires Supported(f)
    ensures r.counter == p.timestamp && |r.payload| == |prior.payload|
    ensures r.reserved0 as int / 0x10 == (if p.sync then 0 else 1) && r.reserved0 as int % 0x10 == 0
  {
    TxSlot(if p.sync then 0 else 0x10, p.timestamp, EncodedImage(prior.payload, samples, f, chCount, maxSamples))
  }

  /** maxSamplesBatch samples per channel always fit in one packet's payload. */
  lemma PacketFits(f: Format, chCount: nat)
    requires Supported(f) && chCount > 0
    ensures SamplesInPacket(f, chCount) * Stride(f, chCount) <= PayloadBytes
  {
    var x := if f.Packed12? then 1360 else 1020;
    assert (x / chCount) * chCount <= x;
    assert SamplesInPacket(f, chCount) * Stride(f, chCount) == (x / chCount) * chCount * FrameSize(f);
  }

  /** A stamped slot's payload decodes back to the samples vectors, every channel
      of them, as long as they hold representable samples. */
  lemma StampedPayloadDecodes(prior: TxSlot, samples: seq<seq<Complex16>>, p: TxPop, f: Format, chCount: nat)
    requires Supported(f) && chCount > 0 && |prior.payload| == PayloadBytes
    requires AllRepresentable(samples, f, chCount, SamplesInPacket(f, chCount))
    ensures var m := SamplesInPacket(f, chCount);
            var D := DecodedSamples(Stamped(prior, samples, p, f, chCount, m).payload, f, chCount, m);
            forall c, k | 0 <= c < chCount && 0 <= k < m :: D[c][k] == samples[c][k]
  {
    var m := SamplesInPacket(f, chCount);
    PacketFits(f, chCount);
    PayloadRoundTrip(prior.payload, samples, f, chCount, m);
  }

  /** The vectors as the loop allocates them: maxSamplesBatch zero samples per
      channel. */
  function InitialVectors(chCount: nat, maxSamples: nat): (vs: seq<seq<Complex16>>)
    ensures Sized(vs, chCount, maxSamples)
    ensures forall c, k | 0 <= c < chCount && 0 <= k < maxSamples :: vs[c][k] == Complex16(0, 0)
  {
    seq(chCount, c => seq(maxSamples, k => Complex16(0, 0)))
  }

  /** What a stamped packet carries after a pop: channel c's popped samples, and
      beyond a short read the samples the earlier reads left in the vector. */
  lemma StampedSendsPop(prior: TxSlot, vs: seq<seq<Complex16>>, p: TxPop, f: Format, chCount: nat)
    requires Supported(f) && chCount > 0 && |prior.payload| == PayloadBytes
    requires Sized(vs, chCount, SamplesInPacket(f, chCount)) && |p.delivered| >= chCount
    requires AllRepresentable(Refill(vs, p.delivered), f, chCount, SamplesInPacket(f, chCount))
    ensures var m := SamplesInPacket(f, chCount);
            var D := DecodedSamples(Stamped(prior, Refill(vs, p.delivered), p, f, chCount, m).payload, f, chCount, m);
            forall c, k | 0 <= c < chCount && 0 <= k < m ::
              D[c][k] == if k < |p.delivered[c]| then p.delivered[c][k] else vs[c][k]
  {
    StampedPayloadDecodes(prior, Refill(vs, p.delivered), p, f, chCount);
    forall c | 0 <= c < chCount {
      RefillContents(vs, p.delivered, c);
    }
  }

  /** Where the slot loop stops: at the first pop after which terminateTx was seen
      (a pop beyond those supplied counts as one), and at packetsToBatch at the
      latest. */
  function Filled(pops: seq<TxPop>, ptb: nat): (i: nat)
    ensures i <= ptb && i <= |pops|
  {
    if ptb == 0 || pops == [] || pops[0].stop then 0 else 1 + Filled(pops[1..], ptb - 1)
  }

  /** Every pop before the stopping point came without the stop flag, and the loop
      stops at the first one that has it. */
  lemma {:induction false} FilledStops(pops: seq<TxPop>, ptb: nat)
    ensures forall k | 0 <= k < Filled(pops, ptb) :: !pops[k].stop
    ensures var i := Filled(pops, ptb);
            i < ptb ==> i == |pops| || pops[i].stop
    decreases ptb
  {
    if !(ptb == 0 || pops == [] || pops[0].stop) {
      FilledStops(pops[1..], ptb - 1);
      forall k | 0 < k < Filled(pops, ptb)
        ensures !pops[k].stop
      {
        assert pops[1..][k - 1] == pops[k];
      }
      var i := Filled(pops, ptb);
      if i < ptb && i < |pops| {
        assert pops[1..][i - 1] == pops[i];
      }
    }
  }

  /** How many pops the slot loop reads: the stamped ones, and the one after which
      the stop flag was seen if there is one. */
  function Consumed(pops: seq<TxPop>, ptb: nat): (n: nat)
    ensures n <= |pops|
  {
    var i := Filled(pops, ptb);
    if i < ptb && i < |pops| then i + 1 else i
  }

  /** The slot loop of one transmit pass: slots are stamped in order from 0 until
      packetsToBatch are done or the stop flag is seen after popping, in which case
      the loop leaves before stamping; later slots keep what an earlier pass left
      in them. Slot k carries the samples vectors as the reads of pop k left them,
      and the vectors carry over to the next pass. samplesSent counts
      maxSamplesBatch per stamped slot, modulo 2^32. */
  method FillBatch(slots: array<TxSlot>, vectors: seq<seq<Complex16>>, pops: seq<TxPop>, f: Format,
                   chCount: nat, maxSamples: nat, samplesSent: nat)
    returns (i: nat, sent: nat, vectors': seq<seq<Complex16>>)
    requires Supported(f) && samplesSent < TWO32
    modifies slots
    ensures i == Filled(pops, slots.Length) && i <= |pops|
    ensures forall k | 0 <= k < i ::
              slots[k] == Stamped(old(slots[k]), VectorsAfter(vectors, pops, k + 1), pops[k], f, chCount, maxSamples)
    ensures forall k | i <= k < slots.Length :: slots[k] == old(slots[k])
    ensures vectors' == VectorsAfter(vectors, pops, Consumed(pops, slots.Length))
    ensures sent == (samplesSent + i * maxSamples) % TWO32
  {
    i, sent, vectors' := 0, samplesSent, vectors;
    ghost var total := samplesSent;
    var stopped := false;
    while i < slots.Length && i < |pops| && !stopped
      invariant 0 <= i <= slots.Length && i <= |pops|
      invariant forall k | 0 <= k < i :: !pops[k].stop
      invariant stopped ==> i < slots.Length && i < |pops| && pops[i].stop
      invariant vectors' == VectorsAfter(vectors, pops, if stopped then i + 1 else i)
      invariant StampedBelow(old(slots[..]), slots[..], vectors, pops, i, f, chCount, maxSamples)
      invariant total == samplesSent + i * maxSamples && sent == total % TWO32
      decreases slots.Length - i, !stopped
    {
      vectors' := Refill(vectors', pops[i].delivered);
      assert vectors' == VectorsAfter(vectors, pops, i + 1);
      if pops[i].stop {
        stopped := true;
      } else {
        StampSlot(slots, i, vectors, pops, vectors', f, chCount, maxSamples, old(slots[..]));
        Add32(total, maxSamples);
        MulSucc(i, maxSamples);
        sent, total := (sent + maxSamples) % TWO32, total + maxSamples;
        i := i + 1;
      }
    }
    FilledIsFirstStop(pops, slots.Length, i);
  }

  /** Slots below i are stamped from their pops, the others are as they were. */
  predicate StampedBelow(slots0: seq<TxSlot>, slots: seq<TxSlot>, vectors: seq<seq<Complex16>>,
                         pops: seq<TxPop>, i: nat, f: Format, chCount: nat, maxSamples: nat)
    requires Supported(f) && i <= |pops| && i <= |slots| == |slots0|
  {
    && (forall k | 0 <= k < i ::
          slots[k] == Stamped(slots0[k], VectorsAfter(vectors, pops, k + 1), pops[k], f, chCount, maxSamples))
    && (forall k | i <= k < |slots| :: slots[k] == slots0[k])
  }

  /** Stamp slot i from pop i and the vectors its reads left. */
  method StampSlot(slots: array<TxSlot>, i: nat, vectors: seq<seq<Complex16>>, pops: seq<TxPop>,
                   vs: seq<seq<Complex16>>, f: Format, chCount: nat, maxSamples: nat, ghost slots0: seq<TxSlot>)
    requires Supported(f) && i < slots.Length && i < |pops| && |slots0| == slots.Length
    requires vs == VectorsAfter(vectors, pops, i + 1)
    requires StampedBelow(slots0, slots[..], vectors, pops, i, f, chCount, maxSamples)
    modifies slots
    ensures StampedBelow(slots0, slots[..], vectors, pops, i + 1, f, chCount, maxSamples)
  {
    slots[i] := Stamped(slots[i], vs, pops[i], f, chCount, maxSamples);
  }

  /** uint32_t addition: narrowing after every step is narrowing once. */
  lemma Add32(x: int, m: int)
    ensures (x % TWO32 + m) % TWO32 == (x + m) % TWO32
  {
    var q := x / TWO32;
    assert x == q * TWO32 + x % TWO32;
    DivModUnique(x % TWO32 + m, TWO32, (x + m) / TWO32 - q, (x + m) % TWO32);
  }

  /** The first stop is unique: any count meeting Filled's contract is Filled. */
  lemma {:induction false} FilledIsFirstStop(pops: seq<TxPop>, ptb: nat, i: nat)
    requires i <= ptb && i <= |pops|
    requires forall k | 0 <= k < i :: !pops[k].stop
    requires i < ptb ==> i >= |pops| || pops[i].stop
    ensures i == Filled(pops, ptb)
    decreases ptb
  {
    if i > 0 {
      assert 0 < |pops| && !pops[0].stop;
      forall k | 0 <= k < i - 1
        ensures k < |pops[1..]| && !pops[1..][k].stop
      {
        assert pops[1..][k] == pops[k + 1];
      }
      if i - 1 < ptb - 1 && i - 1 < |pops[1..]| {
        assert pops[1..][i - 1] == pops[i];
      }
      FilledIsFirstStop(pops[1..], ptb - 1, i - 1);
    }
  }

  /** After the slot loop: the whole buffer goes to SendData whatever the loop
      filled; a short send counts as a failure; a one-second period clears the
      counters. */
  function SendOutcome(c: TxCounters, bytesSent: nat, ptb: nat, secondElapsed: bool): (r: TxCounters)
    ensures secondElapsed ==> r == TxCounters(0, 0, 0)
    ensures !secondElapsed ==> r.totalBytes == c.totalBytes + bytesSent && r.samplesSent == c.samplesSent
    ensures !secondElapsed ==> (r.failures == c.failures + 1 <==> bytesSent != ptb * PacketBytes)
    ensures !secondElapsed ==> (r.failures == c.failures <==> bytesSent == ptb * PacketBytes)
  {
    var c1 := c.(totalBytes := c.totalBytes + bytesSent,
                 failures := if bytesSent != ptb * PacketBytes then c.failures + 1 else c.failures);
    if secondElapsed then c1.(failures := 0, samplesSent := 0, totalBytes := 0) else c1
  }

  /** One pass of the transmit loop (a pass with packetsToBatch = slots.Length):
      fill the slots, account the send. bytesSent is what SendData returned. */
  method TransmitBatch(slots: array<TxSlot>, vectors: seq<seq<Complex16>>, c: TxCounters, pops: seq<TxPop>,
                       f: Format, chCount: nat, bytesSent: nat, secondElapsed: bool)
    returns (c': TxCounters, vectors': seq<seq<Complex16>>)
    requires Supported(f) && chCount > 0 && c.samplesSent < TWO32
    modifies slots
    ensures var i := Filled(pops, slots.Length);
            c' == SendOutcome(c.(samplesSent := (c.samplesSent + i * SamplesInPacket(f, chCount)) % TWO32),
                              bytesSent, slots.Length, secondElapsed)
    ensures forall k | 0 <= k < Filled(pops, slots.Length) ::
              slots[k] == Stamped(old(slots[k]), VectorsAfter(vectors, pops, k + 1), pops[k], f, chCount,
                                  SamplesInPacket(f, chCount))
    ensures forall k | Filled(pops, slots.Length) <= k < slots.Length :: slots[k] == old(slots[k])
    ensures vectors' == VectorsAfter(vectors, pops, Consumed(pops, slots.Length))
  {
    var maxSamples := SamplesInPacket(f, chCount);
    var i, sent;
    i, sent, vectors' := FillBatch(slots, vectors, pops, f, chCount, maxSamples, c.samplesSent);
    c' := c.(samplesSent := sent, totalBytes := c.totalBytes + bytesSent);
    if bytesSent != slots.Length * PacketBytes {
      c' := c'.(failures := c'.failures + 1);
    }
    if secondElapsed {
      c' := c'.(failures := 0, samplesSent := 0, totalBytes := 0);
    }
  }

  // ---------------------------------------------------------------------------
  // Phase-search eligibility

  /** UpdateExternalDataRate's test, as the nested conditions are written: no
      streamer of the channel running, an LMS7002Mr3 (chip version 0x3841), gateware
      revision at least 7 and version at least 2, and an interface clock (twice the
      sample rate) of at least 5 MHz on the receive or the transmit side. */
  function PhaseSearch(streaming: bool, chipVersion: int, gwRevision: int, gwVersion: int,
                       rxRate: real, txRate: real): bool
  {
    if streaming then false
    else if !(chipVersion == 0x3841 && gwRevision >= 7 && gwVersion >= 2) then false
    else 2.0 * rxRate >= 5_000_000.0 || 2.0 * txRate >= 5_000_000.0
  }

  /** The test holds exactly when every condition does; a sample rate of 2.5 MHz on
      either side is enough. */
  lemma PhaseSearchConditions(streaming: bool, chipVersion: int, gwRevision: int, gwVersion: int,
                              rxRate: real, txRate: real)
    ensures PhaseSearch(streaming, chipVersion, gwRevision, gwVersion, rxRate, txRate) <==>
              !streaming && chipVersion == 0x3841 && gwRevision >= 7 && gwVersion >= 2 &&
              (rxRate >= 2_500_000.0 || txRate >= 2_500_000.0)
  {
  }
}
