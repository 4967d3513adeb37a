/** The packed-sample codec of FPGA_common.cpp: FPGAPacketPayload2Samples turns a
    packet payload into per-channel I/Q pairs, Samples2FPGAPacketPayload does the
    reverse. Channels are interleaved: sample k of channel c occupies the frame that
    starts at byte k*stride + frameSize*c, where stride = frameSize*chCount. */
module SampleCodec {
  import opened Base
  import opened Arith

  /** The link format of a stream, as far as the codec tells formats apart:
      STREAM_12_BIT_COMPRESSED, STREAM_12_BIT_IN_16, or any other StreamConfig value. */
  datatype Format = Packed12 | Padded16 | Other(code: int)

  predicate Supported(f: Format) { f.Packed12? || f.Padded16? }

  /** complex16_t: one in-phase and one quadrature int16_t. */
  datatype Complex16 = Complex16(i: int16, q: int16)

  /** Bytes per channel per sample slot. */
  function FrameSize(f: Format): nat
    requires Supported(f)
  {
    if f.Packed12? then 3 else 4
  }

  /** Bytes per sample slot of all channels together (stepSize in the source). */
  function Stride(f: Format, chCount: nat): nat
    requires Supported(f)
  {
    if f.Packed12? then 3 * chCount else 4 * chCount
  }

  /** Both halves of the pair fit in 12 signed bits. */
  predicate Fits12(s: Complex16)
  {
    -0x800 <= s.i < 0x800 && -0x800 <= s.q < 0x800
  }

  /** The samples a format can carry without loss. */
  predicate Representable(f: Format, s: Complex16)
  {
    f.Packed12? ==> Fits12(s)
  }

  // ---------------------------------------------------------------------------
  // One frame
  // ---------------------------------------------------------------------------

  /** `sample = v; sample = sample << 4; sample = sample >> 4;` on an int16_t holding
      the 12-bit value v: the shift left is narrowed to 16 bits, the shift right is
      arithmetic. The result is v read as a 12-bit two's-complement number. */
  function SignExtend12(v: int): (r: int16)
    requires 0 <= v < 0x1000
    ensures -0x800 <= r < 0x800
    ensures r as int == if v < 0x800 then v else v - 0x1000
  {
    (Wrap16(v * 0x10) as int / 0x10) as int16
  }

  /** The value of one frame. In the 12-bit format the I value is the low byte plus
      the low nibble of the middle byte, the Q value the high nibble of the middle
      byte plus the top byte (each operand of `|` occupies bits the other leaves
      clear, so `|` is written as `+`). In the 16-bit format each value is a
      little-endian pair: the high byte shifted left by 8 is narrowed to int16_t and
      the low byte is or-ed into its clear low byte. */
  function DecodeFrame(f: Format, b: seq<byte>): (s: Complex16)
    requires Supported(f) && |b| == FrameSize(f)
  {
    if f.Packed12? then
      Complex16(SignExtend12((b[1] as int % 0x10) * 0x100 + b[0] as int),
                SignExtend12(b[2] as int * 0x10 + (b[1] as int / 0x10) % 0x10))
    else
      Complex16(Wrap16(Wrap16(b[1] as int * 0x100) as int + b[0] as int),
                Wrap16(Wrap16(b[3] as int * 0x100) as int + b[2] as int))
  }

  /** The bytes of one frame. `x & 0xFF` is x modulo 256 and `x >> n` is x divided by
      2^n rounding down, for negative x too; `(q << 4) & 0xF0` is (q mod 16) * 16. */
  function EncodeFrame(f: Format, s: Complex16): (b: seq<byte>)
    requires Supported(f)
    ensures |b| == FrameSize(f)
  {
    var i, q := s.i as int, s.q as int;
    if f.Packed12? then
      [(i % 0x100) as byte,
       ((i / 0x100) % 0x10 + (q % 0x10) * 0x10) as byte,
       ((q / 0x10) % 0x100) as byte]
    else
      [(i % 0x100) as byte, ((i / 0x100) % 0x100) as byte,
       (q % 0x100) as byte, ((q / 0x100) % 0x100) as byte]
  }

  /** Every 12-bit frame decodes to a pair in [-2048, 2047], as the sign extension
      promises. */
  lemma DecodeFrame12Range(b: seq<byte>)
    requires |b| == 3
    ensures Fits12(DecodeFrame(Packed12, b))
  {
  }

  /** The 16-bit format reads each value as a little-endian two's-complement word. */
  lemma DecodeFrame16LittleEndian(b: seq<byte>)
    requires |b| == 4
    ensures var s := DecodeFrame(Padded16, b);
            var wi, wq := b[0] as int + 0x100 * b[1] as int, b[2] as int + 0x100 * b[3] as int;
            && s.i as int == (if wi < 0x8000 then wi else wi - TWO16)
            && s.q as int == (if wq < 0x8000 then wq else wq - TWO16)
  {
  }

  /** A byte made of a low and a high nibble gives both back. */
  lemma NibblesOfByte(lo: int, hi: int)
    requires 0 <= lo < 0x10 && 0 <= hi < 0x10
    ensures (lo + hi * 0x10) % 0x10 == lo && (lo + hi * 0x10) / 0x10 == hi
  {
  }

  /** A 12-bit value split at bit 8 (or at bit 4) and put back together is the
      value modulo 2^12, and sign extension recovers the value. */
  lemma Split12(x: int)
    requires -0x800 <= x < 0x800
    ensures ((x / 0x100) % 0x10) * 0x100 + x % 0x100 == x % 0x1000
    ensures 0x10 * ((x / 0x10) % 0x100) + x % 0x10 == x % 0x1000
    ensures SignExtend12(x % 0x1000) as int == x
  {
    assert x == 0x100 * (x / 0x100) + x % 0x100;
    assert x == 0x10 * (x / 0x10) + x % 0x10;
    if x >= 0 {
      assert x % 0x1000 == x;
    } else {
      assert x % 0x1000 == x + 0x1000;
    }
  }

  /** A 16-bit value split at bit 8 and put back together as DecodeFrame does. */
  lemma Split16(x: int)
    requires -0x8000 <= x < 0x8000
    ensures Wrap16(Wrap16(((x / 0x100) % 0x100) * 0x100) as int + x % 0x100) as int == x
  {
    var h := x / 0x100;
    assert x == 0x100 * h + x % 0x100;
    if h >= 0 {
      assert Wrap16((h % 0x100) * 0x100) as int == h * 0x100;
    } else {
      assert h % 0x100 == h + 0x100;
      assert Wrap16((h % 0x100) * 0x100) as int == h * 0x100;
    }
  }

  /** Encoding then decoding one frame gives the pair back, for every pair the format
      can carry: 12-bit values in the packed format, every int16_t in the other. */
  lemma FrameRoundTrip(f: Format, s: Complex16)
    requires Supported(f) && Representable(f, s)
    ensures DecodeFrame(f, EncodeFrame(f, s)) == s
  {
    var i, q := s.i as int, s.q as int;
    var b := EncodeFrame(f, s);
    if f.Packed12? {
      NibblesOfByte((i / 0x100) % 0x10, q % 0x10);
      assert b[1] as int % 0x10 == (i / 0x100) % 0x10;
      assert (b[1] as int / 0x10) % 0x10 == q % 0x10;
      Split12(i);
      Split12(q);
    } else {
      Split16(i);
      Split16(q);
    }
  }

  /** The bit fields of a 12-bit value v read through the 12-bit two's-complement
      number x it stands for. */
  lemma Fields12(x: int, v: int)
    requires -0x800 <= x < 0x800 && 0 <= v < 0x1000 && x % 0x1000 == v
    ensures x % 0x100 == v % 0x100 && (x / 0x100) % 0x10 == v / 0x100
    ensures x % 0x10 == v % 0x10 && (x / 0x10) % 0x100 == v / 0x10
  {
    if x < 0 {
      assert x == v - 0x1000;
    }
  }

  /** The bytes of a 16-bit value w read through the int16_t x it stands for. */
  lemma Fields16(x: int, w: int)
    requires -0x8000 <= x < 0x8000 && 0 <= w < TWO16 && x % TWO16 == w
    ensures x % 0x100 == w % 0x100 && (x / 0x100) % 0x100 == w / 0x100
  {
    if x < 0 {
      assert x == w - TWO16;
    }
  }

  lemma SignExtend12Mod(v: int)
    requires 0 <= v < 0x1000
    ensures SignExtend12(v) as int % 0x1000 == v
  {
  }

  lemma Frame12BytesRoundTrip(b: seq<byte>)
    requires |b| == 3
    ensures EncodeFrame(Packed12, DecodeFrame(Packed12, b)) == b
  {
    var b0, b1, b2 := b[0] as int, b[1] as int, b[2] as int;
    var lo, hi := b1 % 0x10, b1 / 0x10;
    var vi := lo * 0x100 + b0;
    var vq := b2 * 0x10 + hi;
    var x, y := SignExtend12(vi), SignExtend12(vq);
    assert DecodeFrame(Packed12, b) == Complex16(x, y);
    SignExtend12Mod(vi);
    SignExtend12Mod(vq);
    assert vi % 0x100 == b0 && vi / 0x100 == lo;
    assert vq % 0x10 == hi && vq / 0x10 == b2;
    Fields12(x as int, vi);
    Fields12(y as int, vq);
    var e := EncodeFrame(Packed12, Complex16(x, y));
    assert e[0] == b[0];
    assert e[1] as int == lo + hi * 0x10 == b1;
    assert e[2] == b[2];
  }

  lemma Frame16BytesRoundTrip(b: seq<byte>)
    requires |b| == 4
    ensures EncodeFrame(Padded16, DecodeFrame(Padded16, b)) == b
  {
    var s := DecodeFrame(Padded16, b);
    var wi, wq := b[0] as int + 0x100 * b[1] as int, b[2] as int + 0x100 * b[3] as int;
    DecodeFrame16LittleEndian(b);
    assert s.i as int % TWO16 == wi;
    assert s.q as int % TWO16 == wq;
    Fields16(s.i as int, wi);
    Fields16(s.q as int, wq);
    assert wi % 0x100 == b[0] as int && wi / 0x100 == b[1] as int;
    assert wq % 0x100 == b[2] as int && wq / 0x100 == b[3] as int;
    var e := EncodeFrame(Padded16, s);
    assert e[0] == b[0] && e[1] == b[1];
    assert e[2] == b[2] && e[3] == b[3];
  }

  /** Decoding then encoding one frame gives the bytes back: the frame encoding is a
      bijection between byte triples (quadruples) and representable pairs. */
  lemma FrameBytesRoundTrip(f: Format, b: seq<byte>)
    requires Supported(f) && |b| == FrameSize(f)
    ensures Representable(f, DecodeFrame(f, b))
    ensures EncodeFrame(f, DecodeFrame(f, b)) == b
  {
    if f.Packed12? {
      DecodeFrame12Range(b);
      Frame12BytesRoundTrip(b);
    } else {
      Frame16BytesRoundTrip(b);
    }
  }

  // ---------------------------------------------------------------------------
  // Frame positions in a payload
  // ---------------------------------------------------------------------------

  /** Byte j of the frame of channel c in sample slot k. */
  function Offset(f: Format, n: nat, k: nat, c: nat, j: nat): nat
    requires Supported(f)
  {
    k * Stride(f, n) + FrameSize(f) * c + j
  }

  /** The sample slot, channel and byte within the frame of payload byte p. */
  function Slot(f: Format, n: nat, p: nat): nat
    requires Supported(f) && n > 0
  {
    Quot(p, Stride(f, n))
  }

  function Chan(f: Format, n: nat, p: nat): nat
    requires Supported(f) && n > 0
  {
    (p % Stride(f, n)) / FrameSize(f)
  }

  function Lane(f: Format, n: nat, p: nat): nat
    requires Supported(f) && n > 0
  {
    (p % Stride(f, n)) % FrameSize(f)
  }

  /** A value below n*d, divided by d, is below n. */
  lemma DivBelow(r: nat, d: nat, n: nat)
    requires d > 0 && r < n * d
    ensures r / d < n
  {
    if r / d >= n {
      MulMono(n, r / d, d);
    }
  }

  /** The position of byte j of channel c's frame in slot k decomposes back into
      k, c and j: frames of different channels and slots never share a byte. */
  lemma OffsetParts(f: Format, n: nat, k: nat, c: nat, j: nat)
    requires Supported(f) && c < n && j < FrameSize(f)
    ensures Slot(f, n, Offset(f, n, k, c, j)) == k
    ensures Chan(f, n, Offset(f, n, k, c, j)) == c
    ensures Lane(f, n, Offset(f, n, k, c, j)) == j
  {
    var fs, st := FrameSize(f), Stride(f, n);
    var r := fs * c + j;
    MulLess(c, n, fs);
    DivModUnique(Offset(f, n, k, c, j), st, k, r);
    DivModUnique(r, fs, c, j);
  }

  /** Every payload byte belongs to exactly one frame. */
  lemma PositionParts(f: Format, n: nat, p: nat)
    requires Supported(f) && n > 0
    ensures Chan(f, n, p) < n && Lane(f, n, p) < FrameSize(f)
    ensures p == Offset(f, n, Slot(f, n, p), Chan(f, n, p), Lane(f, n, p))
  {
    var fs, st := FrameSize(f), Stride(f, n);
    DivBelow(p % st, fs, n);
  }

  /** Frames of different channels or slots are disjoint. */
  lemma OffsetInjective(f: Format, n: nat, k: nat, c: nat, j: nat, k': nat, c': nat, j': nat)
    requires Supported(f) && c < n && c' < n && j < FrameSize(f) && j' < FrameSize(f)
    requires Offset(f, n, k, c, j) == Offset(f, n, k', c', j')
    ensures k == k' && c == c' && j == j'
  {
    OffsetParts(f, n, k, c, j);
    OffsetParts(f, n, k', c', j');
  }

  /** A byte lies before the end of slot count - 1 exactly when its slot is below count. */
  lemma SlotBelow(f: Format, n: nat, p: nat, count: nat)
    requires Supported(f) && n > 0
    ensures Slot(f, n, p) < count <==> p < count * Stride(f, n)
  {
    var st := Stride(f, n);
    var k := Slot(f, n, p);
    assert p == k * st + p % st;
    if k < count {
      MulLess(k, count, st);
    } else {
      MulMono(count, k, st);
    }
  }

  // ---------------------------------------------------------------------------
  // Decoding a payload
  // ---------------------------------------------------------------------------

  /** The number of slots the decoding loop visits: b runs over 0, stride, 2*stride, ...
      while b < bufLen, so the last slot may stick out past bufLen. No slot at all
      when there are no channels (then the channel loop never runs). */
  function DecodedCount(f: Format, n: nat, bufLen: nat): nat
    requires Supported(f)
  {
    if n == 0 then 0 else (bufLen + Stride(f, n) - 1) / Stride(f, n)
  }

  /** m slots fall short of bufLen bytes exactly when m is below the decoded count. */
  lemma DecodedCountBound(f: Format, n: nat, bufLen: nat, m: nat)
    requires Supported(f) && n > 0
    ensures m * Stride(f, n) < bufLen <==> m < DecodedCount(f, n, bufLen)
  {
    var st := Stride(f, n);
    var c := DecodedCount(f, n, bufLen);
    assert bufLen + st - 1 == c * st + (bufLen + st - 1) % st;
    if m < c {
      MulLess(m, c, st);
    } else {
      MulMono(c, m, st);
    }
  }

  /** A payload of count whole slots decodes to count samples per channel. */
  lemma DecodedCountOfWholeSlots(f: Format, n: nat, count: nat)
    requires Supported(f) && n > 0
    ensures DecodedCount(f, n, count * Stride(f, n)) == count
  {
    var st := Stride(f, n);
    DivModUnique(count * st + st - 1, st, count, st - 1);
  }

  /** Byte p of a payload; bytes past its end read as zero (the decoder reads them
      only when the payload is not a whole number of slots). */
  function ByteAt(buf: seq<byte>, p: nat): byte
  {
    if p < |buf| then buf[p] else 0
  }

  /** The frame of channel c in slot k as the payload holds it. */
  function FrameAt(buf: seq<byte>, f: Format, n: nat, c: nat, k: nat): (b: seq<byte>)
    requires Supported(f)
    ensures |b| == FrameSize(f)
    ensures forall j :: 0 <= j < FrameSize(f) ==> b[j] == ByteAt(buf, Offset(f, n, k, c, j))
  {
    seq(FrameSize(f), j requires 0 <= j < FrameSize(f) => ByteAt(buf, Offset(f, n, k, c, j)))
  }

  /** Decoded sample k of channel c. */
  function DecodedSample(buf: seq<byte>, f: Format, n: nat, c: nat, k: nat): Complex16
    requires Supported(f)
  {
    DecodeFrame(f, FrameAt(buf, f, n, c, k))
  }

  /** The last byte of the frame of channel c in slot k lies inside the slots below
      count. */
  lemma FrameInside(f: Format, n: nat, c: nat, k: nat, count: nat)
    requires Supported(f) && c < n && k < count
    ensures Offset(f, n, k, c, 0) + FrameSize(f) <= count * Stride(f, n)
  {
    OffsetParts(f, n, k, c, FrameSize(f) - 1);
    SlotBelow(f, n, Offset(f, n, k, c, FrameSize(f) - 1), count);
  }

  /** stepSize is a uint8_t: frameSize * chCount must not wrap. (The slot counter b
      is a uint16_t in the source; the decoder here counts it without wrapping, the
      intended behaviour shown under DecoderIndexWraps.) */
  predicate DecodeFits(f: Format, n: nat, bufLen: nat)
    requires Supported(f)
  {
    Stride(f, n) < 0x100
  }

  /** The source's slot counter after n steps: stepSize added n times to a
      uint16_t. */
  function WrappedSlotStart(step: nat, n: nat): (b: nat)
    ensures b < TWO16
  {
    (n * step) % TWO16
  }

  /** One pass of the loop adds stepSize to the 16-bit counter, wrapping at 65536:
      the closed form above is that recurrence started from 0. */
  lemma WrappedSlotStep(step: nat, n: nat)
    ensures WrappedSlotStart(step, 0) == 0
    ensures WrappedSlotStart(step, n + 1) == (WrappedSlotStart(step, n) + step) % TWO16
  {
  }

  /** As written, the decoding loop may never end: for two channels of the packed
      format (stepSize 6) and bufLen = 65535, the uint16_t counter goes
      0, 6, ..., 65532 and wraps to 2; it only ever holds even values, all below
      bufLen, so the guard b < bufLen holds at every step. */
  lemma DecoderIndexWraps(n: nat)
    ensures Stride(Packed12, 2) == 6
    ensures WrappedSlotStart(Stride(Packed12, 2), n) < 65535
  {
    var q, r := (n * 6) / TWO16, (n * 6) % TWO16;
    assert n * 6 == q * TWO16 + r;
    assert r == 2 * (3 * n - q * 0x8000);
  }

  /** A slot the decoder enters lies below DecodedCount, with the channel's frame
      and the next slot's start inside the decoded part. */
  lemma SlotInside(f: Format, n: nat, bufLen: nat, ch: nat, k: nat)
    requires Supported(f) && ch < n && k * Stride(f, n) < bufLen
    ensures k < DecodedCount(f, n, bufLen)
    ensures Offset(f, n, k, ch, 0) + FrameSize(f) <= DecodedCount(f, n, bufLen) * Stride(f, n)
    ensures (k + 1) * Stride(f, n) <= DecodedCount(f, n, bufLen) * Stride(f, n)
    ensures (k + 1) * Stride(f, n) == k * Stride(f, n) + Stride(f, n)
  {
    DecodedCountBound(f, n, bufLen, k);
    FrameInside(f, n, ch, k, DecodedCount(f, n, bufLen));
    MulMono(k + 1, DecodedCount(f, n, bufLen), Stride(f, n));
    MulSucc(k, Stride(f, n));
  }

  /** The frame of channel c in slot k, read straight off the buffer. */
  lemma FrameSlice(buf: seq<byte>, f: Format, n: nat, c: nat, k: nat)
    requires Supported(f) && Offset(f, n, k, c, 0) + FrameSize(f) <= |buf|
    ensures var o := Offset(f, n, k, c, 0);
            buf[o..o + FrameSize(f)] == FrameAt(buf, f, n, c, k)
  {
  }

  /** One decoded frame: samples[ch, k] from the frame that starts at buffer[o]. */
  method DecodeInto(buffer: array<byte>, o: nat, format: Format, chCount: nat,
                    samples: array2<Complex16>, ch: nat, k: nat)
    requires Supported(format) && o == Offset(format, chCount, k, ch, 0)
    requires o + FrameSize(format) <= buffer.Length
    requires ch < samples.Length0 && k < samples.Length1
    modifies samples
    ensures samples[ch, k] == DecodedSample(buffer[..], format, chCount, ch, k)
    ensures forall c, j | 0 <= c < samples.Length0 && 0 <= j < samples.Length1 && (c != ch || j != k)
              :: samples[c, j] == old(samples[c, j])
  {
    FrameSlice(buffer[..], format, chCount, ch, k);
    samples[ch, k] := DecodeFrame(format, buffer[o..o + FrameSize(format)]);
  }

  /** The inner loop of FPGAPacketPayload2Samples for channel ch: walk the slots
      while b < bufLen and decode the channel's frame of each into samples[ch, k];
      no other element changes. */
  method DecodeChannel(buffer: array<byte>, bufLen: nat, chCount: nat, format: Format,
                       samples: array2<Complex16>, ch: nat)
    returns (collected: nat)
    requires Supported(format) && DecodeFits(format, chCount, bufLen) && ch < chCount
    requires buffer.Length >= DecodedCount(format, chCount, bufLen) * Stride(format, chCount)
    requires samples.Length0 >= chCount && samples.Length1 >= DecodedCount(format, chCount, bufLen)
    modifies samples
    ensures collected == DecodedCount(format, chCount, bufLen)
    ensures forall k | 0 <= k < collected :: samples[ch, k] == DecodedSample(buffer[..], format, chCount, ch, k)
    ensures forall c, k | 0 <= c < samples.Length0 && 0 <= k < samples.Length1 && !(c == ch && k < collected)
              :: samples[c, k] == old(samples[c, k])
  {
    var fs := FrameSize(format);
    var step := Stride(format, chCount);
    ghost var total := DecodedCount(format, chCount, bufLen);
    ghost var bs := buffer[..];
    collected := 0;
    var b := 0;
    while b < bufLen
      invariant b == collected * step
      invariant collected <= total
      invariant forall k | 0 <= k < collected :: samples[ch, k] == DecodedSample(bs, format, chCount, ch, k)
      invariant forall c, k | 0 <= c < samples.Length0 && 0 <= k < samples.Length1 && (c != ch || k >= collected)
        :: samples[c, k] == old(samples[c, k])
    {
      SlotInside(format, chCount, bufLen, ch, collected);
      DecodeInto(buffer, b + fs * ch, format, chCount, samples, ch, collected);
      b := b + step;
      collected := collected + 1;
    }
    DecodedCountBound(format, chCount, bufLen, collected);
  }

  /** FPGAPacketPayload2Samples: decode every channel's frames of the slots below
      bufLen into samples[ch, collected]. Reports the count of the last channel
      walked, or EINVAL without touching anything for a format it does not know. */
  method PayloadToSamples(buffer: array<byte>, bufLen: nat, chCount: nat, format: Format,
                          samples: array2<Complex16>)
    returns (status: Status, count: Option<nat>)
    requires Supported(format) ==> DecodeFits(format, chCount, bufLen)
    requires Supported(format) ==>
      && buffer.Length >= DecodedCount(format, chCount, bufLen) * Stride(format, chCount)
      && samples.Length0 >= chCount
      && samples.Length1 >= DecodedCount(format, chCount, bufLen)
    modifies samples
    ensures !Supported(format) ==> status == Err(EINVAL) && count == None && unchanged(samples)
    ensures Supported(format) ==>
      var total := DecodedCount(format, chCount, bufLen);
      && status == Ok && count == Some(total)
      && total * Stride(format, chCount) <= buffer.Length
      && (forall c, k :: 0 <= c < chCount && 0 <= k < total ==>
            samples[c, k] == DecodedSample(buffer[..], format, chCount, c, k))
      && (forall c, k | 0 <= c < samples.Length0 && 0 <= k < samples.Length1 && !(c < chCount && k < total)
            :: samples[c, k] == old(samples[c, k]))
  {
    if !Supported(format) {
      return Err(EINVAL), None;
    }
    ghost var total := DecodedCount(format, chCount, bufLen);
    var collected := 0;
    var ch := 0;
    while ch < chCount
      invariant 0 <= ch <= chCount
      invariant ch > 0 ==> collected == total
      invariant ch == 0 ==> collected == 0
      invariant forall c, k :: 0 <= c < ch && 0 <= k < total ==>
        samples[c, k] == DecodedSample(buffer[..], format, chCount, c, k)
      invariant forall c, k | 0 <= c < samples.Length0 && 0 <= k < samples.Length1 && !(c < ch && k < total)
        :: samples[c, k] == old(samples[c, k])
    {
      collected := DecodeChannel(buffer, bufLen, chCount, format, samples, ch);
      ch := ch + 1;
    }
    if chCount > 0 {
      FrameInside(format, chCount, 0, 0, 1);
    }
    assert total * Stride(format, chCount) <= buffer.Length;
    return Ok, Some(collected);
  }

  // ---------------------------------------------------------------------------
  // Encoding a payload
  // ---------------------------------------------------------------------------

  /** Sample k of channel c of the encoder's input, or zero where the input has none. */
  function SampleAt(S: seq<seq<Complex16>>, c: nat, k: nat): Complex16
  {
    if c < |S| && k < |S[c]| then S[c][k] else Complex16(0, 0)
  }

  /** The byte the encoder writes at payload position p. */
  function ImageByte(S: seq<seq<Complex16>>, f: Format, n: nat, p: nat): byte
    requires Supported(f) && n > 0
  {
    EncodeFrame(f, SampleAt(S, Chan(f, n, p), Slot(f, n, p)))[Lane(f, n, p)]
  }

  /** The payload after encoding count samples of each of n channels over prior: every
      byte of the first count slots comes from its channel's sample, every later byte
      is left as it was. */
  function EncodedImage(prior: seq<byte>, S: seq<seq<Complex16>>, f: Format, n: nat, count: nat): (r: seq<byte>)
    requires Supported(f)
    ensures |r| == |prior|
  {
    seq(|prior|, p requires 0 <= p < |prior| =>
      if n > 0 && Slot(f, n, p) < count then ImageByte(S, f, n, p) else prior[p])
  }

  /** Whether the encoder has written byte p once it has done every channel below ch
      and the slots below src of channel ch. */
  predicate Written(f: Format, n: nat, count: nat, ch: nat, src: nat, p: nat)
    requires Supported(f) && n > 0
  {
    Slot(f, n, p) < count && (Chan(f, n, p) < ch || (Chan(f, n, p) == ch && Slot(f, n, p) < src))
  }

  /** Byte p of the payload part way through the encoder's loops. */
  ghost function PartialByte(prior: seq<byte>, S: seq<seq<Complex16>>, f: Format, n: nat, count: nat,
                             ch: nat, src: nat, p: nat): byte
    requires Supported(f) && p < |prior|
  {
    if n > 0 && Written(f, n, count, ch, src, p) then ImageByte(S, f, n, p) else prior[p]
  }

  ghost function PartialImage(prior: seq<byte>, S: seq<seq<Complex16>>, f: Format, n: nat, count: nat,
                              ch: nat, src: nat): (r: seq<byte>)
    requires Supported(f)
    ensures |r| == |prior|
    ensures forall p :: 0 <= p < |prior| ==> r[p] == PartialByte(prior, S, f, n, count, ch, src, p)
  {
    seq(|prior|, p requires 0 <= p < |prior| => PartialByte(prior, S, f, n, count, ch, src, p))
  }

  lemma PartialStart(prior: seq<byte>, S: seq<seq<Complex16>>, f: Format, n: nat, count: nat)
    requires Supported(f)
    ensures PartialImage(prior, S, f, n, count, 0, 0) == prior
  {
  }

  lemma PartialNextChannel(prior: seq<byte>, S: seq<seq<Complex16>>, f: Format, n: nat, count: nat, ch: nat)
    requires Supported(f)
    ensures PartialImage(prior, S, f, n, count, ch, count) == PartialImage(prior, S, f, n, count, ch + 1, 0)
  {
  }

  lemma PartialComplete(prior: seq<byte>, S: seq<seq<Complex16>>, f: Format, n: nat, count: nat)
    requires Supported(f)
    ensures PartialImage(prior, S, f, n, count, n, 0) == EncodedImage(prior, S, f, n, count)
  {
    forall p | 0 <= p < |prior| && n > 0
      ensures Chan(f, n, p) < n
    {
      PositionParts(f, n, p);
    }
  }

  /** Writing the frame of channel ch in slot src moves the payload one step on: the
      frame's bytes take the encoded sample and every other byte stays as it was. */
  lemma PartialStepAt(prior: seq<byte>, S: seq<seq<Complex16>>, f: Format, n: nat, count: nat,
                      ch: nat, src: nat, p: nat)
    requires Supported(f) && ch < n && src < count && p < |prior|
    ensures var o := Offset(f, n, src, ch, 0);
            PartialByte(prior, S, f, n, count, ch, src + 1, p)
            == if o <= p < o + FrameSize(f) then EncodeFrame(f, SampleAt(S, ch, src))[p - o]
               else PartialByte(prior, S, f, n, count, ch, src, p)
  {
    var o := Offset(f, n, src, ch, 0);
    if o <= p < o + FrameSize(f) {
      assert p == Offset(f, n, src, ch, p - o);
      OffsetParts(f, n, src, ch, p - o);
      assert Written(f, n, count, ch, src + 1, p) && !Written(f, n, count, ch, src, p);
    } else {
      PositionParts(f, n, p);
      var k, c, j := Slot(f, n, p), Chan(f, n, p), Lane(f, n, p);
      if c == ch && k == src {
        assert false;
      }
      assert Written(f, n, count, ch, src + 1, p) == Written(f, n, count, ch, src, p);
    }
  }

  /** The three or four byte stores of one frame, at buffer[o..]. */
  method PutFrame(buffer: array<byte>, o: nat, e: seq<byte>)
    requires 3 <= |e| <= 4 && o + |e| <= buffer.Length
    modifies buffer
    ensures forall p :: 0 <= p < buffer.Length ==>
      buffer[p] == if o <= p < o + |e| then e[p - o] else old(buffer[p])
  {
    buffer[o] := e[0];
    buffer[o + 1] := e[1];
    buffer[o + 2] := e[2];
    if |e| == 4 {
      buffer[o + 3] := e[3];
    }
  }

  /** Samples2FPGAPacketPayload: for each channel, write the frame of each of its
      samplesCount samples into its place in every slot, and report the length of the
      payload, samplesCount whole slots. A format it does not know is refused with
      EINVAL and the buffer is left alone. */
  method SamplesToPayload(samples: seq<seq<Complex16>>, samplesCount: nat, chCount: nat, format: Format,
                          buffer: array<byte>)
    returns (status: Status, bufLen: Option<nat>)
    requires Supported(format) ==>
      && Stride(format, chCount) < 0x100
      && |samples| >= chCount
      && (forall c :: 0 <= c < chCount ==> |samples[c]| >= samplesCount)
      && buffer.Length >= samplesCount * Stride(format, chCount)
    modifies buffer
    ensures !Supported(format) ==> status == Err(EINVAL) && bufLen == None && unchanged(buffer)
    ensures Supported(format) ==>
      && status == Ok && bufLen == Some(samplesCount * Stride(format, chCount))
      && buffer[..] == EncodedImage(old(buffer[..]), samples, format, chCount, samplesCount)
  {
    if !Supported(format) {
      return Err(EINVAL), None;
    }
    ghost var before := buffer[..];
    PartialStart(before, samples, format, chCount, samplesCount);
    var b := 0;
    var ch := 0;
    while ch < chCount
      invariant 0 <= ch <= chCount
      invariant b == if ch == 0 then 0 else samplesCount * Stride(format, chCount)
      invariant buffer[..] == PartialImage(before, samples, format, chCount, samplesCount, ch, 0)
    {
      b := EncodeChannel(samples, samplesCount, chCount, format, buffer, before, ch);
      PartialNextChannel(before, samples, format, chCount, samplesCount, ch);
      ch := ch + 1;
    }
    PartialComplete(before, samples, format, chCount, samplesCount);
    return Ok, Some(b);
  }

  /** The inner loop of Samples2FPGAPacketPayload for channel ch: the frame of each
      of its samples goes into its place in every slot, b stepping by the stride. */
  method EncodeChannel(samples: seq<seq<Complex16>>, samplesCount: nat, chCount: nat, format: Format,
                       buffer: array<byte>, ghost before: seq<byte>, ch: nat) returns (b: nat)
    requires Supported(format) && ch < chCount && |before| == buffer.Length
    requires |samples| >= chCount && (forall c :: 0 <= c < chCount ==> |samples[c]| >= samplesCount)
    requires buffer.Length >= samplesCount * Stride(format, chCount)
    requires buffer[..] == PartialImage(before, samples, format, chCount, samplesCount, ch, 0)
    modifies buffer
    ensures b == samplesCount * Stride(format, chCount)
    ensures buffer[..] == PartialImage(before, samples, format, chCount, samplesCount, ch, samplesCount)
  {
    var step := Stride(format, chCount);
    b := 0;
    var src := 0;
    while src < samplesCount
      invariant 0 <= src <= samplesCount
      invariant b == src * step
      invariant buffer[..] == PartialImage(before, samples, format, chCount, samplesCount, ch, src)
    {
      EncodeSlot(samples, samplesCount, chCount, format, buffer, before, ch, src, b + FrameSize(format) * ch);
      MulSucc(src, step);
      b := b + step;
      src := src + 1;
    }
  }

  /** One frame of the encoder: sample src of channel ch into slot src. */
  method EncodeSlot(samples: seq<seq<Complex16>>, samplesCount: nat, chCount: nat, format: Format,
                    buffer: array<byte>, ghost before: seq<byte>, ch: nat, src: nat, o: nat)
    requires Supported(format) && ch < chCount && src < samplesCount && |before| == buffer.Length
    requires |samples| > ch && |samples[ch]| > src
    requires buffer.Length >= samplesCount * Stride(format, chCount)
    requires o == Offset(format, chCount, src, ch, 0)
    requires buffer[..] == PartialImage(before, samples, format, chCount, samplesCount, ch, src)
    modifies buffer
    ensures buffer[..] == PartialImage(before, samples, format, chCount, samplesCount, ch, src + 1)
  {
    var e := EncodeFrame(format, samples[ch][src]);
    assert e == EncodeFrame(format, SampleAt(samples, ch, src));
    FrameInside(format, chCount, ch, src, samplesCount);
    PutFrame(buffer, o, e);
    forall p | 0 <= p < buffer.Length
      ensures buffer[p] == PartialImage(before, samples, format, chCount, samplesCount, ch, src + 1)[p]
    {
      PartialStepAt(before, samples, format, chCount, samplesCount, ch, src, p);
    }
    assert buffer[..] == PartialImage(before, samples, format, chCount, samplesCount, ch, src + 1);
  }

  // ---------------------------------------------------------------------------
  // The two directions together
  // ---------------------------------------------------------------------------

  /** The samples a payload of count slots decodes to, channel by channel. */
  function DecodedSamples(buf: seq<byte>, f: Format, n: nat, count: nat): (S: seq<seq<Complex16>>)
    requires Supported(f)
    ensures |S| == n && forall c :: 0 <= c < n ==> |S[c]| == count
  {
    seq(n, c requires 0 <= c < n => seq(count, k requires 0 <= k < count => DecodedSample(buf, f, n, c, k)))
  }

  /** Every sample the format can carry: what the encoder put into a payload is what
      the decoder reads back, channel by channel and sample by sample. */
  predicate AllRepresentable(S: seq<seq<Complex16>>, f: Format, n: nat, count: nat)
  {
    |S| >= n && (forall c :: 0 <= c < n ==> |S[c]| >= count) &&
    forall c, k :: 0 <= c < n && 0 <= k < count ==> Representable(f, S[c][k])
  }

  /** The frame of channel c in slot k of an encoded payload is the encoding of the
      sample. */
  lemma EncodedFrame(prior: seq<byte>, S: seq<seq<Complex16>>, f: Format, n: nat, count: nat, c: nat, k: nat)
    requires Supported(f) && c < n && k < count && count * Stride(f, n) <= |prior|
    ensures FrameAt(EncodedImage(prior, S, f, n, count), f, n, c, k) == EncodeFrame(f, SampleAt(S, c, k))
  {
    var image := EncodedImage(prior, S, f, n, count);
    FrameInside(f, n, c, k, count);
    forall j | 0 <= j < FrameSize(f)
      ensures FrameAt(image, f, n, c, k)[j] == EncodeFrame(f, SampleAt(S, c, k))[j]
    {
      OffsetParts(f, n, k, c, j);
    }
  }

  /** Decoding an encoded payload gives back every sample encoded into it. */
  lemma PayloadRoundTrip(prior: seq<byte>, S: seq<seq<Complex16>>, f: Format, n: nat, count: nat)
    requires Supported(f) && n > 0 && count * Stride(f, n) <= |prior|
    requires AllRepresentable(S, f, n, count)
    ensures DecodedCount(f, n, count * Stride(f, n)) == count
    ensures var D := DecodedSamples(EncodedImage(prior, S, f, n, count), f, n, count);
            forall c, k :: 0 <= c < n && 0 <= k < count ==> D[c][k] == S[c][k]
  {
    DecodedCountOfWholeSlots(f, n, count);
    var image := EncodedImage(prior, S, f, n, count);
    forall c, k | 0 <= c < n && 0 <= k < count
      ensures DecodedSample(image, f, n, c, k) == S[c][k]
    {
      EncodedFrame(prior, S, f, n, count, c, k);
      FrameRoundTrip(f, S[c][k]);
    }
  }

  /** Encoding the samples a payload decodes to rebuilds the payload byte for byte. */
  lemma PayloadBytesRoundTrip(buf: seq<byte>, f: Format, n: nat, count: nat)
    requires Supported(f) && count * Stride(f, n) <= |buf|
    ensures EncodedImage(buf, DecodedSamples(buf, f, n, count), f, n, count) == buf
  {
    var S := DecodedSamples(buf, f, n, count);
    forall p | 0 <= p < |buf| && n > 0 && Slot(f, n, p) < count
      ensures ImageByte(S, f, n, p) == buf[p]
    {
      var k, c, j := Slot(f, n, p), Chan(f, n, p), Lane(f, n, p);
      PositionParts(f, n, p);
      FrameBytesRoundTrip(f, FrameAt(buf, f, n, c, k));
    }
  }
}
