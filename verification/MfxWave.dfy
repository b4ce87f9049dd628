/** The mfx waveform: packet bits become half-bit levels in the SPI buffer, by bit
    stuffing, biphase coding, sync violations and the feedback clock. */
module MfxWave {
  import opened BitBuffer

  // ---------- the waveform as levels, one per half bit ----------

  /** A half sync: runs of 2, 1 and 2 half bits; the level ends inverted. */
  function HSync(l: bool): seq<bool> {
    [!l, !l, l, !l, !l]
  }

  function HSyncs(l: bool, n: nat): (w: seq<bool>)
    ensures |w| == 5 * n
    decreases n
  {
    if n == 0 then [] else HSync(l) + HSyncs(!l, n - 1)
  }

  /** The level after n half syncs. */
  function LevelAfter(l: bool, n: nat): bool {
    l == (n % 2 == 0)
  }

  /** Every bit starts with an edge; a 1 has another one in its middle. */
  function BitWave(l: bool, v: bool): seq<bool> {
    if v then [!l, l] else [!l, !l]
  }

  function Coded(l: bool, bits: seq<bool>): (w: seq<bool>)
    ensures |w| == 2 * |bits|
    decreases |bits|
  {
    if bits == [] then [] else BitWave(l, bits[0]) + Coded(l == bits[0], bits[1..])
  }

  /** The level after coded bits. */
  function CodedLevel(l: bool, bits: seq<bool>): bool
    decreases |bits|
  {
    if bits == [] then l else CodedLevel(l == bits[0], bits[1..])
  }

  /** A 0 is inserted after eight 1s; `ones` of them have gone before. */
  function Stuffed(bits: seq<bool>, ones: nat): seq<bool>
    decreases |bits|
  {
    if bits == [] then []
    else if bits[0] then
      if ones + 1 >= 8 then [true, false] + Stuffed(bits[1..], 0) else [true] + Stuffed(bits[1..], ones + 1)
    else [false] + Stuffed(bits[1..], 0)
  }

  /** 11 full syncs, or 11 and a half, so that the end is high; then 0, 0, 1, 1. */
  function RdsSync(l: bool): seq<bool> {
    HSyncs(l, RdsSyncCount(l)) + Coded(true, [false, false, true, true])
  }

  function RdsSyncCount(l: bool): nat { if l then 22 else 23 }

  // ---------- SPI bytes ----------

  function Byte(l: bool): bv8 { if l then 0xFF else 0x00 }

  function Bytes(w: seq<bool>): (b: seq<bv8>)
    ensures |b| == |w|
  {
    seq(|w|, i requires 0 <= i < |w| => Byte(w[i]))
  }

  function Levels(b: seq<bv8>): (w: seq<bool>)
    ensures |w| == |b|
  {
    seq(|b|, i requires 0 <= i < |b| => b[i] != 0)
  }

  function Repeat(b: bv8, n: nat): (s: seq<bv8>)
    ensures |s| == n
  {
    seq(n, _ => b)
  }

  datatype PacketType = Plain | AckDiscovery | AckVerify | Read8 | Read16 | Read32

  predicate IsRead(t: PacketType) { t.Read8? || t.Read16? || t.Read32? }

  // ---------- the feedback clock, one SPI bit at a time ----------

  const PULSES := 23
  const PERIOD := 146        // BITS_PER_RDSSYNC_PER
  const PULSE := 4           // BITS_PER_RDSSYNC_IMP

  function RdsBits(t: PacketType): nat
    requires IsRead(t)
  {
    match t case Read8 => 23 case Read16 => 31 case Read32 => 47
  }

  /** 23 pulses of 25 microseconds every 912, then pulses at twice that rate. */
  predicate InPulse(k: nat) {
    if k < PULSES * PERIOD then k % PERIOD >= PERIOD - PULSE
    else (k - PULSES * PERIOD) % (PERIOD / 2) >= PERIOD / 2 - PULSE
  }

  function ClockBits(t: PacketType): (n: nat)
    requires IsRead(t)
    ensures (n + 7) / 8 == match t case Read8 => 840 case Read16 => 986 case Read32 => 1278
  {
    PERIOD * (PULSES + RdsBits(t))
  }

  /** 0x80 >> k: the SPI sends the highest bit first. */
  function Mask7(k: nat): bv8
    requires k < 8
  {
    Mask(7 - k)
  }

  predicate Has(x: bv8, i: nat)
    requires i < 8
  {
    x & Mask7(i) != 0
  }

  predicate SpiBit(b: seq<bv8>, k: nat)
    requires k / 8 < |b|
  {
    Has(b[k / 8], k % 8)
  }

  /** The bytes r carry the clock pulses of the first n SPI bits and nothing else. */
  ghost predicate Clocked(r: seq<bv8>, n: nat) {
    forall k :: 0 <= k < 8 * |r| ==> SpiBit(r, k) == (k < n && InPulse(k))
  }

  // ---------- the whole buffer ----------

  function Head(bits: seq<bool>): seq<bool> {
    [false, false, false, false, false, false, false, false] + HSyncs(false, 2) + Coded(false, Stuffed(bits, 0))
  }

  function HeadLevel(bits: seq<bool>): bool { CodedLevel(false, Stuffed(bits, 0)) }

  /** What follows the payload of a packet without feedback or with a carrier answer. */
  function Tail(t: PacketType, l: bool): seq<bv8>
    requires !IsRead(t)
  {
    if t == Plain then Bytes(HSyncs(l, 5)) + Repeat(0, 8)
    else Bytes(RdsSync(l)) + Repeat(0x00, 128) + Bytes(HSyncs(false, 2)) + Repeat(0xFF, 128) + Bytes(HSyncs(true, 4))
  }

  /** What follows the payload of a read packet: the clock r between two syncs. */
  ghost predicate ReadTail(t: PacketType, l: bool, b: seq<bv8>)
    requires IsRead(t)
  {
    var s := Bytes(RdsSync(l));
    var n := (ClockBits(t) + 7) / 8;
    && |b| == |s| + n + 10
    && b[..|s|] == s
    && Clocked(b[|s|..|s| + n], ClockBits(t))
    && b[|s| + n..] == Bytes(HSyncs(true, 2))
  }

  ghost predicate IsWave(t: PacketType, bits: seq<bool>, b: seq<bv8>) {
    var h := Bytes(Head(bits));
    && |h| <= |b| && b[..|h|] == h
    && if IsRead(t) then ReadTail(t, HeadLevel(bits), b[|h|..]) else b[|h|..] == Tail(t, HeadLevel(bits))
  }

  /** Number of SPI bytes of a packet. */
  function SpiLen(t: PacketType, bits: seq<bool>): nat {
    var payload := 18 + 2 * |Stuffed(bits, 0)|;
    var rds := 5 * RdsSyncCount(HeadLevel(bits)) + 8;
    match t
    case Plain => payload + 33
    case AckDiscovery => payload + rds + 286
    case AckVerify => payload + rds + 286
    case Read8 => payload + rds + 850
    case Read16 => payload + rds + 996
    case Read32 => payload + rds + 1288
  }

  // ---------- building it in place ----------

  class SpiStream {
    const spi: array<bv8>
    var len: nat
    ghost var out: seq<bv8>

    ghost predicate Valid()
      reads this, spi
    {
      && |out| == len <= spi.Length && spi[..len] == out
      && forall k :: len <= k < spi.Length ==> spi[k] == 0
    }

    /** Over a zeroed buffer; MFX_STARTSTOP_0_BYTES are already used. */
    constructor (buffer: array<bv8>)
      requires buffer.Length >= 8 && forall k :: 0 <= k < buffer.Length ==> buffer[k] == 0
      ensures Valid() && spi == buffer && out == Repeat(0, 8)
    {
      spi := buffer;
      len := 8;
      out := Repeat(0, 8);
    }

    method AddOneHSync(ghost l: bool)
      requires Valid() && len > 0 && len + 5 <= spi.Length
      requires l == (out[len - 1] != 0)
      modifies this, spi
      ensures Valid() && out == old(out) + [Byte(!l), Byte(!l), Byte(l), Byte(!l), Byte(!l)]
    {
      if spi[len - 1] != 0 {
        spi[len + 0], spi[len + 1] := 0x00, 0x00;
        spi[len + 2] := 0xFF;
        spi[len + 3], spi[len + 4] := 0x00, 0x00;
      } else {
        spi[len + 0], spi[len + 1] := 0xFF, 0xFF;
        spi[len + 2] := 0x00;
        spi[len + 3], spi[len + 4] := 0xFF, 0xFF;
      }
      ghost var five := [Byte(!l), Byte(!l), Byte(l), Byte(!l), Byte(!l)];
      assert spi[..len + 5] == spi[..len] + five;
      out := out + five;
      len := len + 5;
    }

    /** addMFXhSync */
    method AddHSync(hsyncs: nat, ghost l: bool)
      requires Valid() && len > 0 && len + 5 * hsyncs <= spi.Length
      requires l == (out[len - 1] != 0)
      modifies this, spi
      ensures Valid() && out == old(out) + Bytes(HSyncs(l, hsyncs))
      ensures out[len - 1] == if hsyncs == 0 then old(out[len - 1]) else Byte(LevelAfter(l, hsyncs))
    {
      hide Bytes;
      BytesEmpty();
      ghost var last := l;
      for i := 0 to hsyncs
        invariant Valid() && len == old(len) + 5 * i && last == LevelAfter(l, i)
        invariant out[len - 1] == if i == 0 then old(out[len - 1]) else Byte(last)
        invariant last == (out[len - 1] != 0)
        invariant out + Bytes(HSyncs(last, hsyncs - i)) == old(out) + Bytes(HSyncs(l, hsyncs))
      {
        HSyncStep(out, last, hsyncs - i);
        AddOneHSync(last);
        last := !last;
      }
    }

    /** addMFX */
    method AddMfx(value: bool, ghost l: bool)
      requires Valid() && len > 0 && len + 2 <= spi.Length
      requires l == (out[len - 1] != 0)
      modifies this, spi
      ensures Valid() && out == old(out) + Bytes(BitWave(l, value))
      ensures out[len - 1] == Byte(l == value)
    {
      if spi[len - 1] != 0 {
        spi[len] := 0x00;
        spi[len + 1] := 0x00;
      } else {
        spi[len] := 0xFF;
        spi[len + 1] := 0xFF;
      }
      if value {
        spi[len + 1] := !spi[len + 1];
      }
      out := out + [Byte(!l), Byte(l == value)];
      len := len + 2;
    }

    /** addRDSSync; whatever the payload, the level ends high. */
    method AddRdsSync(ghost l: bool)
      requires Valid() && len > 0 && len + 123 <= spi.Length
      requires l == (out[len - 1] != 0)
      modifies this, spi
      ensures Valid() && out == old(out) + Bytes(RdsSync(l))
      ensures out[len - 1] == 0xFF
    {
      RdsSyncIs(l);
      BytesConcat(HSyncs(l, RdsSyncCount(l)), [false, false, true, true, false, true, false, true]);
      hide Bytes, HSyncs, RdsSync;
      ghost var s := Bytes(HSyncs(l, RdsSyncCount(l)));
      AddHSync(if spi[len - 1] != 0 then 22 else 23, l);
      label Synced:
      AddMfx(false, true);
      AddMfx(false, false);
      AddMfx(true, true);
      AddMfx(true, true);
      FourBits();
      assert out == old(out) + s + Bytes([false, false, true, true, false, true, false, true]);
    }

    /** memset of n bytes with the inverted last level. */
    method Fill(n: nat)
      requires Valid() && len > 0 && len + n <= spi.Length
      modifies this, spi
      ensures Valid() && out == old(out) + Repeat(!old(out[len - 1]), n)
    {
      var b := !spi[len - 1];
      for i := 0 to n
        invariant len == old(len) && out == old(out) && spi[..len] == out
        invariant forall k :: len <= k < len + i ==> spi[k] == b
        invariant forall k :: len + i <= k < spi.Length ==> spi[k] == 0
      {
        spi[len + i] := b;
      }
      len := len + n;
      out := out + Repeat(b, n);
    }

    /** len += MFX_STARTSTOP_0_BYTES */
    method Idle()
      requires Valid() && len + 8 <= spi.Length
      modifies this
      ensures Valid() && out == old(out) + Repeat(0, 8)
    {
      len := len + 8;
      out := out + Repeat(0, 8);
    }

    /** Idle level, two half syncs, and the payload. */
    method AddHead(bits: seq<bool>)
      requires Valid() && out == Repeat(0, 8) && |Head(bits)| <= spi.Length
      modifies this, spi
      ensures Valid() && out == Bytes(Head(bits)) && len > 0 && out[len - 1] == Byte(HeadLevel(bits))
    {
      HeadIs(bits);
      hide Bytes, Coded, Stuffed, HSyncs, HeadLevel;
      AddHSync(2, false);
      AddPayload(bits);
    }

    /** One payload bit v, and a 0 after the eighth 1 in a row; rest is yet to come. */
    method AddPayloadBit(v: bool, count1: nat, ghost l: bool, ghost rest: seq<bool>) returns (next: nat, ghost m: bool)
      requires Valid() && len > 0 && count1 < 8 && out[len - 1] == Byte(l)
      requires len + 2 * |Stuffed([v] + rest, count1)| <= spi.Length
      modifies this, spi
      ensures Valid() && len > 0 && next < 8 && out[len - 1] == Byte(m)
      ensures len + 2 * |Stuffed(rest, next)| == old(len) + 2 * |Stuffed([v] + rest, count1)|
      ensures CodedLevel(m, Stuffed(rest, next)) == CodedLevel(l, Stuffed([v] + rest, count1))
      ensures out + Bytes(Coded(m, Stuffed(rest, next))) == old(out) + Bytes(Coded(l, Stuffed([v] + rest, count1)))
    {
      StuffedStep(v, rest, count1);
      hide Bytes, Coded, CodedLevel, Byte, Stuffed;
      ghost var t := Stuffed([v] + rest, count1);
      CodedStep(out, l, t);
      AddMfx(v, l);
      m := l == v;
      next := if v then count1 + 1 else 0;
      if next >= 8 {
        CodedStep(out, m, t[1..]);
        AddMfx(false, m);
        m := !m;
        next := 0;
      }
    }

    /** The payload loop. */
    method AddPayload(bits: seq<bool>)
      requires Valid() && len > 0 && out[len - 1] == Byte(false)
      requires len + 2 * |Stuffed(bits, 0)| <= spi.Length
      modifies this, spi
      ensures Valid() && len > 0 && out == old(out) + Bytes(Coded(false, Stuffed(bits, 0)))
      ensures out[len - 1] == Byte(HeadLevel(bits))
    {
      hide Bytes, Coded, CodedLevel, Byte;
      var count1 := 0;
      ghost var l := false;
      assert bits[0..] == bits;
      for i := 0 to |bits|
        invariant Valid() && 0 < len && 0 <= count1 < 8 && out[len - 1] == Byte(l)
        invariant len + 2 * |Stuffed(bits[i..], count1)| == old(len) + 2 * |Stuffed(bits, 0)|
        invariant CodedLevel(l, Stuffed(bits[i..], count1)) == HeadLevel(bits)
        invariant out + Bytes(Coded(l, Stuffed(bits[i..], count1))) == old(out) + Bytes(Coded(false, Stuffed(bits, 0)))
      {
        assert bits[i..] == [bits[i]] + bits[i + 1..];
        count1, l := AddPayloadBit(bits[i], count1, l, bits[i + 1..]);
      }
      CodedStep(out, l, []);
    }

    /** One 25 microsecond pulse of the feedback clock at SPI bit bitPos. */
    method AddPulse(bitPos: nat, size: nat) returns (end: nat)
      requires |out| == len <= spi.Length && spi[..len] == out && len + size <= spi.Length
      requires Clocked(spi[len..len + size], bitPos) && bitPos + PULSE <= 8 * size
      requires forall k :: bitPos <= k < bitPos + PULSE ==> InPulse(k)
      requires forall k :: len + size <= k < spi.Length ==> spi[k] == 0
      modifies spi
      ensures end == bitPos + PULSE && spi[..len] == out && Clocked(spi[len..len + size], end)
      ensures forall k :: len + size <= k < spi.Length ==> spi[k] == 0
    {
      hide Clocked, InPulse, Mask7;
      end := bitPos;
      for j := 0 to PULSE
        invariant end == bitPos + j && spi[..len] == out && Clocked(spi[len..len + size], end)
        invariant forall k :: len + size <= k < spi.Length ==> spi[k] == 0
      {
        ghost var r := spi[len..len + size];
        SetClockBit(r, end);
        label L:
        spi[len + end / 8] := spi[len + end / 8] | Mask7(end % 8);
        SliceUpdate(old@L(spi[..]), spi[..], len, size, end / 8);
        end := end + 1;
      }
    }

    method AddSlowPulses(size: nat) returns (bitPos: nat)
      requires |out| == len <= spi.Length && spi[..len] == out && len + size <= spi.Length
      requires PULSES * PERIOD <= 8 * size && Clocked(spi[len..len + size], 0)
      requires forall k :: len + size <= k < spi.Length ==> spi[k] == 0
      modifies spi
      ensures bitPos == PULSES * PERIOD && spi[..len] == out && Clocked(spi[len..len + size], bitPos)
      ensures forall k :: len + size <= k < spi.Length ==> spi[k] == 0
    {
      hide Clocked;
      bitPos := 0;
      for i := 0 to PULSES
        invariant bitPos == i * PERIOD && spi[..len] == out && Clocked(spi[len..len + size], bitPos)
        invariant forall k :: len + size <= k < spi.Length ==> spi[k] == 0
      {
        PeriodPulse(i);
        SkipClock(spi[len..len + size], bitPos, bitPos + PERIOD - PULSE);
        bitPos := AddPulse(bitPos + PERIOD - PULSE, size);
      }
    }

    method AddFastPulses(start: nat, rdsBitCount: nat, size: nat) returns (bitPos: nat)
      requires |out| == len <= spi.Length && spi[..len] == out && len + size <= spi.Length
      requires start == PULSES * PERIOD && start + rdsBitCount * PERIOD <= 8 * size
      requires Clocked(spi[len..len + size], start)
      requires forall k :: len + size <= k < spi.Length ==> spi[k] == 0
      modifies spi
      ensures bitPos == start + rdsBitCount * PERIOD && spi[..len] == out && Clocked(spi[len..len + size], bitPos)
      ensures forall k :: len + size <= k < spi.Length ==> spi[k] == 0
    {
      hide Clocked;
      bitPos := start;
      for i := 0 to rdsBitCount * 2
        invariant bitPos == start + i * (PERIOD / 2) && spi[..len] == out && Clocked(spi[len..len + size], bitPos)
        invariant forall k :: len + size <= k < spi.Length ==> spi[k] == 0
      {
        HalfPeriodPulse(i);
        SkipClock(spi[len..len + size], bitPos, bitPos + PERIOD / 2 - PULSE);
        bitPos := AddPulse(bitPos + PERIOD / 2 - PULSE, size);
      }
    }

    /** The feedback clock: 23 periods, then every data bit with two half periods. */
    method AddClock(t: PacketType)
      requires Valid() && IsRead(t) && len + (ClockBits(t) + 7) / 8 <= spi.Length
      modifies this, spi
      ensures Valid() && len == old(len) + (ClockBits(t) + 7) / 8
      ensures out[..old(len)] == old(out) && Clocked(out[old(len)..], ClockBits(t))
      ensures out[len - 1] != 0
    {
      var size := (ClockBits(t) + 7) / 8;
      ZeroClocked(spi[len..len + size]);
      hide Clocked;
      var bitPos := AddSlowPulses(size);
      bitPos := AddFastPulses(bitPos, RdsBits(t), size);
      LastPulse(t, spi[len..len + size]);
      out := spi[..len + size];
      assert out[len..] == spi[len..len + size] && out[..len] == spi[..len];
      len := len + (bitPos + 7) / 8;
    }

    /** Final syncs and idle level of a packet without feedback. */
    method EndPlain(ghost l: bool)
      requires Valid() && len > 0 && len + 33 <= spi.Length && out[len - 1] == Byte(l)
      modifies this, spi
      ensures Valid() && out == old(out) + Tail(Plain, l) && len == old(len) + 33
    {
      hide Bytes, HSyncs;
      AddHSync(5, l);
      Idle();
    }

    /** Feedback sync, and two pauses of 6.4 ms for the carrier answer. */
    method EndAck(t: PacketType, ghost l: bool)
      requires Valid() && len > 0 && (t.AckDiscovery? || t.AckVerify?)
      requires len + 5 * RdsSyncCount(l) + 294 <= spi.Length && out[len - 1] == Byte(l)
      modifies this, spi
      ensures Valid() && out == old(out) + Tail(t, l) && len == old(len) + 5 * RdsSyncCount(l) + 294
    {
      RdsSyncIs(l);
      hide Bytes, HSyncs, RdsSync;
      AddRdsSync(l);
      Fill(128);
      AddHSync(2, false);
      Fill(128);
      AddHSync(4, true);
      TailIs(old(out), t, l);
    }

    /** Feedback sync, clock for the reply, final syncs. */
    method EndRead(t: PacketType, ghost l: bool)
      requires Valid() && len > 0 && IsRead(t) && out[len - 1] == Byte(l)
      requires len + 5 * RdsSyncCount(l) + 18 + (ClockBits(t) + 7) / 8 <= spi.Length
      modifies this, spi
      ensures Valid() && len == old(len) + 5 * RdsSyncCount(l) + 18 + (ClockBits(t) + 7) / 8
      ensures out[..old(len)] == old(out) && ReadTail(t, l, out[old(len)..])
    {
      RdsSyncIs(l);
      hide Bytes, HSyncs, RdsSync, Clocked;
      AddRdsSync(l);
      ghost var a := out;
      AddClock(t);
      ghost var b := out;
      AddHSync(2, true);
      ReadTailIs(old(out), a, b, out, t, l);
    }
  }

  /** convertMFXPacketToSPIStream */
  method ConvertMfxPacketToSpiStream(bits: seq<bool>, t: PacketType, spiBuffer: array<bv8>) returns (len: nat)
    requires forall k :: 0 <= k < spiBuffer.Length ==> spiBuffer[k] == 0
    requires SpiLen(t, bits) <= spiBuffer.Length
    modifies spiBuffer
    ensures len == SpiLen(t, bits) && IsWave(t, bits, spiBuffer[..len])
  {
    LengthIs(t, bits);
    var s := new SpiStream(spiBuffer);
    s.AddHead(bits);
    ghost var l, h := HeadLevel(bits), s.out;
    hide Bytes, Coded, Stuffed, HSyncs, RdsSync, HeadLevel, Head, SpiLen, Tail, ReadTail;
    if t == Plain {
      s.EndPlain(l);
    } else if IsRead(t) {
      s.EndRead(t, l);
    } else {
      s.EndAck(t, l);
    }
    len := s.len;
    assert s.out[..|h|] == h && spiBuffer[..len] == s.out;
  }

  lemma LengthIs(t: PacketType, bits: seq<bool>)
    ensures var n, r := |Head(bits)|, 5 * RdsSyncCount(HeadLevel(bits)) + 8;
            SpiLen(t, bits) ==
            if t == Plain then n + 33 else if IsRead(t) then n + r + (ClockBits(t) + 7) / 8 + 10 else n + r + 286
    ensures |RdsSync(HeadLevel(bits))| == 5 * RdsSyncCount(HeadLevel(bits)) + 8
  {
    hide HSyncs, Coded;
  }

  lemma TailIs(out: seq<bv8>, t: PacketType, l: bool)
    requires t.AckDiscovery? || t.AckVerify?
    ensures out + Bytes(RdsSync(l)) + Repeat(0x00, 128) + Bytes(HSyncs(false, 2)) + Repeat(0xFF, 128) + Bytes(HSyncs(true, 4))
            == out + Tail(t, l)
  {
    hide Bytes, RdsSync, HSyncs, Repeat;
  }

  lemma ReadTailIs(out: seq<bv8>, a: seq<bv8>, b: seq<bv8>, c: seq<bv8>, t: PacketType, l: bool)
    requires IsRead(t)
    requires a == out + Bytes(RdsSync(l)) && c == b + Bytes(HSyncs(true, 2))
    requires |b| == |a| + (ClockBits(t) + 7) / 8 && b[..|a|] == a && Clocked(b[|a|..], ClockBits(t))
    ensures |out| <= |c| && c[..|out|] == out && ReadTail(t, l, c[|out|..])
  {
    hide Clocked, RdsSync, Bytes, HSyncs;
    assert |Bytes(HSyncs(true, 2))| == 10;
    var n := |Bytes(RdsSync(l))|;
    var d := c[|out|..];
    assert c[..|out|] == a[..|out|];
    assert d[..n] == a[|out|..];
    assert d[n..n + (ClockBits(t) + 7) / 8] == b[|a|..];
    assert d[n + (ClockBits(t) + 7) / 8..] == Bytes(HSyncs(true, 2));
  }

  /** The last clock pulse lies in the last byte: the level before the final syncs. */
  lemma LastPulse(t: PacketType, r: seq<bv8>)
    requires IsRead(t) && |r| == (ClockBits(t) + 7) / 8 && Clocked(r, ClockBits(t))
    ensures r[|r| - 1] != 0
  {
    var k := ClockBits(t) - PULSE;
    assert InPulse(k);
    assert SpiBit(r, k);
    assert k / 8 == |r| - 1;
    NonZero(r[|r| - 1], Mask7(k % 8));
  }

  lemma NonZero(x: bv8, m: bv8)
    ensures x & m != 0 ==> x != 0
  {
  }

  lemma HeadIs(bits: seq<bool>)
    ensures Bytes(Head(bits)) == Repeat(0, 8) + Bytes(HSyncs(false, 2)) + Bytes(Coded(false, Stuffed(bits, 0)))
  {
  }

  lemma StuffedStep(v: bool, rest: seq<bool>, ones: nat)
    requires ones < 8
    ensures Stuffed([v] + rest, ones) ==
            if v && ones == 7 then [true, false] + Stuffed(rest, 0)
            else [v] + Stuffed(rest, if v then ones + 1 else 0)
    ensures v && ones == 7 ==> Stuffed([v] + rest, ones)[1..][1..] == Stuffed(rest, 0)
    ensures !(v && ones == 7) ==> Stuffed([v] + rest, ones)[1..] == Stuffed(rest, if v then ones + 1 else 0)
  {
    assert ([v] + rest)[1..] == rest;
  }

  lemma CodedStep(out: seq<bv8>, l: bool, t: seq<bool>)
    ensures t == [] ==> out + Bytes(Coded(l, t)) == out && CodedLevel(l, t) == l
    ensures t != [] ==>
              && out + Bytes(Coded(l, t)) == out + Bytes(BitWave(l, t[0])) + Bytes(Coded(l == t[0], t[1..]))
              && CodedLevel(l, t) == CodedLevel(l == t[0], t[1..])
    ensures (Byte(l) != 0) == l
  {
    if t != [] {
      BytesConcat(BitWave(l, t[0]), Coded(l == t[0], t[1..]));
    }
  }

  lemma SpiBitAfterSet(r: seq<bv8>, n: nat, k: nat)
    requires n / 8 < |r| && k / 8 < |r|
    ensures SpiBit(r[n / 8 := r[n / 8] | Mask7(n % 8)], k) == (SpiBit(r, k) || k == n)
  {
    hide Mask7, Has;
    SamePlace(k, n);
    if k / 8 == n / 8 { OrMask7(r[n / 8], n % 8, k % 8); }
  }

  lemma OrMask7(x: bv8, i: nat, j: nat)
    requires i < 8 && j < 8
    ensures Has(x | Mask7(i), j) == (Has(x, j) || i == j)
  {
    hide Mask;
    OrMask(x, 7 - i, 7 - j);
  }

  lemma SetClockBit(r: seq<bv8>, n: nat)
    requires Clocked(r, n) && n < 8 * |r| && InPulse(n)
    ensures Clocked(r[n / 8 := r[n / 8] | Mask7(n % 8)], n + 1)
  {
    hide InPulse, Mask7, SpiBit;
    var t := r[n / 8 := r[n / 8] | Mask7(n % 8)];
    forall k | 0 <= k < 8 * |t|
      ensures SpiBit(t, k) == (k < n + 1 && InPulse(k))
    {
      assert SpiBit(r, k) == (k < n && InPulse(k));
      SpiBitAfterSet(r, n, k);
    }
  }

  /** An update inside a slice is an update of the slice. */
  lemma SliceUpdate(s: seq<bv8>, t: seq<bv8>, len: nat, size: nat, i: nat)
    requires len + size <= |s| == |t| && i < size && t == s[len + i := t[len + i]]
    ensures t[len..len + size] == s[len..len + size][i := t[len + i]] && t[..len] == s[..len]
    ensures forall k :: len + size <= k < |s| ==> t[k] == s[k]
  {
  }

  lemma SkipClock(r: seq<bv8>, n: nat, m: nat)
    requires Clocked(r, n) && n <= m && forall k :: n <= k < m ==> !InPulse(k)
    ensures Clocked(r, m)
  {
  }

  lemma ZeroClocked(r: seq<bv8>)
    requires forall k :: 0 <= k < |r| ==> r[k] == 0
    ensures Clocked(r, 0)
  {
  }

  lemma PeriodPulse(i: nat)
    requires i < PULSES
    ensures forall k :: i * PERIOD <= k < (i + 1) * PERIOD ==> (InPulse(k) <==> k >= (i + 1) * PERIOD - PULSE)
  {
  }

  lemma HalfPeriodPulse(i: nat)
    ensures var b := PULSES * PERIOD + i * (PERIOD / 2);
            forall k :: b <= k < b + PERIOD / 2 ==> (InPulse(k) <==> k >= b + PERIOD / 2 - PULSE)
  {
    var b := PULSES * PERIOD + i * (PERIOD / 2);
    forall k | b <= k < b + PERIOD / 2
      ensures InPulse(k) <==> k >= b + PERIOD / 2 - PULSE
    {
      var r := k - b;
      assert k - PULSES * PERIOD == 73 * i + r;
      assert (73 * i + r) % 73 == r;
    }
  }

  lemma BytesEmpty()
    ensures Bytes([]) == []
  {
  }

  lemma BytesConcat(v: seq<bool>, w: seq<bool>)
    ensures Bytes(v + w) == Bytes(v) + Bytes(w)
  {
  }

  lemma HSyncStep(out: seq<bv8>, l: bool, n: nat)
    requires n > 0
    ensures out + Bytes(HSyncs(l, n)) ==
            out + [Byte(!l), Byte(!l), Byte(l), Byte(!l), Byte(!l)] + Bytes(HSyncs(!l, n - 1))
  {
    BytesConcat(HSync(l), HSyncs(!l, n - 1));
    assert Bytes(HSync(l)) == [Byte(!l), Byte(!l), Byte(l), Byte(!l), Byte(!l)];
  }

  lemma RdsSyncIs(l: bool)
    ensures RdsSync(l) == HSyncs(l, RdsSyncCount(l)) + [false, false, true, true, false, true, false, true]
    ensures LevelAfter(l, RdsSyncCount(l))
  {
    hide HSyncs;
    assert Coded(true, [true]) == BitWave(true, true) + [];
    assert Coded(true, [true, true]) == BitWave(true, true) + Coded(true, [true, true][1..]);
    assert Coded(false, [false, true, true]) == BitWave(false, false) + Coded(true, [false, true, true][1..]);
    assert Coded(true, [false, false, true, true]) == BitWave(true, false) + Coded(false, [false, false, true, true][1..]);
  }

  lemma FourBits()
    ensures Bytes(BitWave(true, false)) + Bytes(BitWave(false, false)) + Bytes(BitWave(true, true)) + Bytes(BitWave(true, true))
            == Bytes([false, false, true, true, false, true, false, true])
  {
  }
}
