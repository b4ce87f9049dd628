/** From a DCC bit stream to the track: packing into the pool buffer, the pulses of
    the SPI buffer in both buffer formats, and the receiver that reads them. */
module DccPulse {
  import Words
  import opened BitBuffer
  import opened BitStrings
  import opened DccStream
  import opened Sequences

  // ---------- packing ----------

  /** A buffer of a packed bit stream: its length, then eight bits a byte. */
  ghost predicate Carries(p: seq<bv8>, bits: seq<bool>) {
    && |bits| < 256 && |p| == |bits| / 8 + 2
    && p[0] as int == |bits| && Holds(p, bits)
  }

  /** Packs the bits, lowest bit first; more than 255 are refused. */
  method TranslateBitstream2Packetstream(bitstream: seq<bool>, packetstream: array<bv8>) returns (size: nat)
    requires packetstream.Length == PKTSIZE
    modifies packetstream
    ensures |bitstream| > 255 ==> size == 0 && packetstream[..] == old(packetstream[..])
    ensures |bitstream| <= 255 ==> 0 < size <= PKTSIZE && Carries(packetstream[..size], bitstream)
  {
    hide Holds, StreamBit, Mask;
    var bitLen := |bitstream|;
    if bitLen > 255 { return 0; }
    forall k | 0 <= k < PKTSIZE { packetstream[k] := 0; }
    var first := bitLen as bv8;
    packetstream[0] := first;
    Blank(packetstream[..]);
    PackBits(bitstream, packetstream);
    size := bitLen / 8 + 2;
    Words.LengthByte(bitLen);
    HoldsPrefix(packetstream[..], bitstream, size);
    assert packetstream[..][..size] == packetstream[..size];
  }

  method PackBits(bitstream: seq<bool>, packetstream: array<bv8>)
    requires packetstream.Length == PKTSIZE && |bitstream| < 256 && Holds(packetstream[..], [])
    modifies packetstream
    ensures packetstream[0] == old(packetstream[0]) && Holds(packetstream[..], bitstream)
  {
    hide Holds, StreamBit, Mask;
    var bitLen := |bitstream|;
    assert bitstream[..0] == [];
    var i := 0;
    while i < bitLen
      invariant 0 <= i <= bitLen && packetstream[0] == old(packetstream[0])
      invariant Holds(packetstream[..], bitstream[..i])
    {
      ghost var before := packetstream[..];
      assert bitstream[..i + 1] == bitstream[..i] + [bitstream[i]];
      if bitstream[i] {
        SetStreamBit(before, bitstream[..i]);
        packetstream[i / 8 + 1] := packetstream[i / 8 + 1] | Mask(i % 8);
        assert packetstream[..] == before[1 + i / 8 := before[1 + i / 8] | Mask(i % 8)];
      } else {
        SkipStreamBit(before, bitstream[..i]);
      }
      i := i + 1;
    }
    assert bitstream[..bitLen] == bitstream;
  }

  lemma Blank(s: seq<bv8>)
    requires |s| == PKTSIZE && forall k :: 1 <= k < PKTSIZE ==> s[k] == 0
    ensures Holds(s, [])
  {
    forall i | 0 <= i < 8 * (|s| - 1) ensures !StreamBit(s, i) {
      NoBit(i % 8);
    }
  }

  lemma NoBit(k: nat)
    requires k < 8
    ensures 0 & Mask(k) == 0
  {
  }

  lemma HoldsPrefix(s: seq<bv8>, bits: seq<bool>, n: nat)
    requires Holds(s, bits) && 1 <= n <= |s| && |bits| <= 8 * (n - 1)
    ensures Holds(s[..n], bits)
  {
    forall i | 0 <= i < 8 * (n - 1) ensures StreamBit(s[..n], i) == (i < |bits| && bits[i]) {
      assert StreamBit(s, i) == (i < |bits| && bits[i]);
    }
  }

  lemma AllMasks(x: bv8)
    requires x & Mask(0) != 0 && x & Mask(1) != 0 && x & Mask(2) != 0 && x & Mask(3) != 0
    requires x & Mask(4) != 0 && x & Mask(5) != 0 && x & Mask(6) != 0 && x & Mask(7) != 0
    ensures x == 0xFF
  {
  }

  /** Behind a preamble of at least eight ones the format test sees 0xFF. */
  lemma LongFormat(p: seq<bv8>, bits: seq<bool>)
    requires Carries(p, bits) && |bits| >= 8 && forall k :: 0 <= k < 8 ==> bits[k]
    ensures p[1] == 0xFF
  {
    assert StreamBit(p, 0) && StreamBit(p, 1) && StreamBit(p, 2) && StreamBit(p, 3);
    assert StreamBit(p, 4) && StreamBit(p, 5) && StreamBit(p, 6) && StreamBit(p, 7);
    AllMasks(p[1]);
  }

  // ---------- pulses ----------

  /** A 1 is a short high and a short low half, a 0 a long high and a long low one. */
  function Pulse(b: bool): seq<bv8> {
    if b then [0xFF, 0x00] else [0xFF, 0xFF, 0x00, 0x00]
  }

  function Pulses(bits: seq<bool>): seq<bv8> {
    if bits == [] then [] else Pulses(bits[..|bits| - 1]) + Pulse(bits[|bits| - 1])
  }

  function Zeros(bits: seq<bool>): (n: nat)
    ensures n <= |bits|
  {
    if bits == [] then 0 else Zeros(bits[..|bits| - 1]) + (if bits[|bits| - 1] then 0 else 1)
  }

  lemma {:induction false} PulsesLength(bits: seq<bool>)
    ensures |Pulses(bits)| == 2 * |bits| + 2 * Zeros(bits)
  {
    if bits != [] { PulsesLength(bits[..|bits| - 1]); }
  }

  lemma PulsesSnoc(bits: seq<bool>, b: bool)
    ensures Pulses(bits + [b]) == Pulses(bits) + Pulse(b)
    ensures Zeros(bits + [b]) == Zeros(bits) + if b then 0 else 1
  {
    assert (bits + [b])[..|bits|] == bits;
  }

  /** The receiver: high and low halves of equal length, 58 us each for a 1 and
      116 us each for a 0. It stops at anything else. */
  function ReadPulses(s: seq<bv8>): seq<bool> {
    if |s| >= 2 && s[..2] == [0xFF, 0x00] then [true] + ReadPulses(s[2..])
    else if |s| >= 4 && s[..4] == [0xFF, 0xFF, 0x00, 0x00] then [false] + ReadPulses(s[4..])
    else []
  }

  lemma ReadPulse(b: bool, rest: seq<bv8>)
    ensures ReadPulses(Pulse(b) + rest) == [b] + ReadPulses(rest)
  {
    var s := Pulse(b) + rest;
    if b {
      assert s[..2] == [0xFF, 0x00] && s[2..] == rest;
    } else {
      assert s[1] == 0xFF;
      assert s[..2] != [0xFF, 0x00];
      assert s[..4] == [0xFF, 0xFF, 0x00, 0x00] && s[4..] == rest;
    }
  }

  lemma {:induction false} PulsesRead(bits: seq<bool>, rest: seq<bv8>)
    ensures ReadPulses(Pulses(bits) + rest) == bits + ReadPulses(rest)
    decreases |bits|
  {
    hide ReadPulses, Pulse;
    if bits == [] {
      assert Pulses(bits) + rest == rest;
    } else {
      var n := |bits| - 1;
      Assoc(Pulses(bits[..n]), Pulse(bits[n]), rest);
      PulsesRead(bits[..n], Pulse(bits[n]) + rest);
      ReadPulse(bits[n], rest);
      assert bits == bits[..n] + [bits[n]];
      Assoc(bits[..n], [bits[n]], ReadPulses(rest));
    }
  }

  // ---------- the SPI buffer ----------

  /** The buffer's first len bytes: a leading 0, then the pulses of the bits. */
  ghost predicate Wave(s: seq<bv8>, len: nat, bits: seq<bool>) {
    len <= |s| && s[..len] == [0x00] + Pulses(bits)
  }

  lemma WaveRead(s: seq<bv8>, len: nat, bits: seq<bool>)
    requires Wave(s, len, bits)
    ensures 1 <= len && ReadPulses(s[1..len]) == bits
    ensures len == 1 + 2 * |bits| + 2 * Zeros(bits)
  {
    hide ReadPulses, Pulses;
    assert s[1..len] == Pulses(bits);
    assert Pulses(bits) + [] == Pulses(bits);
    PulsesRead(bits, []);
    NothingRead();
    PulsesLength(bits);
    assert bits + [] == bits;
  }

  lemma NothingRead()
    ensures ReadPulses([]) == []
  {
  }

  lemma PulsesPrefix(done: seq<bool>, rest: seq<bool>)
    ensures |Pulses(done)| <= |Pulses(done + rest)|
    decreases |rest|
  {
    if rest == [] {
      assert done + rest == done;
    } else {
      var n := |rest| - 1;
      assert done + rest == (done + rest[..n]) + [rest[n]];
      PulsesSnoc(done + rest[..n], rest[n]);
      PulsesPrefix(done, rest[..n]);
    }
  }

  /** Writes the next bit b of the whole stream, of which done is written. */
  method AddBit(b: bool, spi: array<bv8>, len: nat, ghost done: seq<bool>, ghost rest: seq<bool>,
    ghost whole: seq<bool>) returns (end: nat)
    requires Wave(spi[..], len, done) && done + ([b] + rest) == whole
    requires 1 + |Pulses(whole)| <= spi.Length
    modifies spi
    ensures Wave(spi[..], end, done + [b]) && (done + [b]) + rest == whole
  {
    hide Pulses;
    Assoc(done, [b], rest);
    PulsesSnoc(done, b);
    PulsesPrefix(done + [b], rest);
    ghost var before := spi[..len];
    end := len;
    if b {
      spi[end] := 0xFF;
      end := end + 1;
      spi[end] := 0x00;
      end := end + 1;
      assert spi[..end] == before + [0xFF, 0x00];
    } else {
      spi[end] := 0xFF;
      end := end + 1;
      spi[end] := 0xFF;
      end := end + 1;
      spi[end] := 0x00;
      end := end + 1;
      spi[end] := 0x00;
      end := end + 1;
      assert spi[..end] == before + [0xFF, 0xFF, 0x00, 0x00];
    }
    Assoc([0x00], Pulses(done), Pulse(b));
    assert spi[..][..end] == spi[..end];
  }

  // ---------- the two buffer formats ----------

  lemma BitOfByte(b: bv8, k: nat)
    requires k < 8
    ensures ToBits(b)[k] == (b & Mask(7 - k) != 0)
  {
  }

  function BytesOf(p: seq<bv8>): (r: seq<Byte>)
    ensures |r| == |p| && AllBytes(r)
    ensures forall k :: 0 <= k < |p| ==> r[k] == ToBits(p[k])
  {
    if p == [] then [] else [ToBits(p[0])] + BytesOf(p[1..])
  }

  const POSTAMBLE := 3

  /** Short: the number of preamble ones, the number of bytes, the bytes. */
  predicate IsShort(p: seq<bv8>) { |p| >= 2 && p[1] != 0xFF && 2 + p[1] as int <= |p| }

  predicate IsLong(p: seq<bv8>) { |p| >= 2 && p[1] == 0xFF && p[0] as int <= 8 * (|p| - 1) }

  /** The bits that a pool buffer stands for on the track. */
  function TrackBits(p: seq<bv8>): seq<bool>
    requires IsShort(p) || IsLong(p)
  {
    if p[1] != 0xFF then
      Ones(p[0] as int) + (Frame(BytesOf(p[2..2 + p[1] as int])) + Ones(POSTAMBLE))
    else StreamBits(p, p[0] as int) + [true]
  }

  method AddOnes(n: nat, spi: array<bv8>, len: nat, ghost done: seq<bool>, ghost rest: seq<bool>,
    ghost whole: seq<bool>) returns (end: nat)
    requires Wave(spi[..], len, done) && done + (Ones(n) + rest) == whole
    requires 1 + |Pulses(whole)| <= spi.Length
    modifies spi
    ensures Wave(spi[..], end, done + Ones(n)) && (done + Ones(n)) + rest == whole
  {
    hide Wave, Pulses;
    Assoc(done, Ones(n), rest);
    end := len;
    ghost var d := done;
    var i := 0;
    assert done + [] == done;
    while i < n
      invariant 0 <= i <= n && Wave(spi[..], end, d)
      invariant d + (Ones(n - i) + rest) == whole && d + Ones(n - i) == done + Ones(n)
    {
      OnesFirst(n - i, rest);
      Assoc(d, [true], Ones(n - i - 1));
      end := AddBit(true, spi, end, d, Ones(n - i - 1) + rest, whole);
      d := d + [true];
      i := i + 1;
    }
    assert d + Ones(0) == d;
  }

  lemma OnesFirst(n: nat, rest: seq<bool>)
    requires n > 0
    ensures Ones(n) == [true] + Ones(n - 1) && Ones(n) + rest == [true] + (Ones(n - 1) + rest)
  {
  }

  /** The separating 0 and the eight bits of a byte. */
  method AddByte(b: bv8, spi: array<bv8>, len: nat, ghost done: seq<bool>, ghost rest: seq<bool>,
    ghost whole: seq<bool>) returns (end: nat)
    requires Wave(spi[..], len, done) && done + ([false] + (ToBits(b) + rest)) == whole
    requires 1 + |Pulses(whole)| <= spi.Length
    modifies spi
    ensures Wave(spi[..], end, done + ([false] + ToBits(b)))
    ensures (done + ([false] + ToBits(b))) + rest == whole
  {
    hide Wave, Pulses, ToBits;
    end := AddBit(false, spi, len, done, ToBits(b) + rest, whole);
    end := AddByteBits(b, spi, end, done + [false], rest, whole);
    Assoc(done, [false], ToBits(b));
    Assoc(done + [false], ToBits(b), rest);
  }

  /** Highest bit first. */
  method AddByteBits(b: bv8, spi: array<bv8>, len: nat, ghost start: seq<bool>, ghost rest: seq<bool>,
    ghost whole: seq<bool>) returns (end: nat)
    requires Wave(spi[..], len, start) && start + (ToBits(b) + rest) == whole
    requires 1 + |Pulses(whole)| <= spi.Length
    modifies spi
    ensures Wave(spi[..], end, start + ToBits(b))
  {
    hide Wave, Pulses, Mask, ToBits;
    ghost var bits := ToBits(b);
    end := len;
    var m := 8;                       // 1 << (m - 1) is the bit to test next
    AllAhead(start, bits);
    while m > 0
      invariant 0 <= m <= 8 && Wave(spi[..], end, start + bits[..8 - m])
      invariant (start + bits[..8 - m]) + (bits[8 - m..] + rest) == whole
    {
      TakeBit(start, bits, 8 - m, rest);
      BitOfByte(b, 8 - m);
      end := AddBit(b & Mask(m - 1) != 0, spi, end, start + bits[..8 - m], bits[8 - m + 1..] + rest, whole);
      m := m - 1;
    }
    assert bits[..8] == bits;
  }

  lemma AllAhead(start: seq<bool>, bits: seq<bool>)
    ensures start + bits[..0] == start && bits[0..] == bits
  {
  }

  lemma TakeBit(start: seq<bool>, bits: seq<bool>, i: nat, rest: seq<bool>)
    requires i < |bits|
    ensures bits[i..] + rest == [bits[i]] + (bits[i + 1..] + rest)
    ensures (start + bits[..i]) + [bits[i]] == start + bits[..i + 1]
  {
  }

  lemma ShortBits(p: seq<bv8>, k: nat, n: nat, all: seq<Byte>)
    requires IsShort(p) && k == p[0] as int && n == p[1] as int && all == BytesOf(p[2..2 + n])
    ensures TrackBits(p) == Ones(k) + (Frame(all) + Ones(POSTAMBLE))
    ensures forall i :: 0 <= i < n ==> all[i] == ToBits(p[i + 2])
  {
    hide ToBits;
    forall i | 0 <= i < n ensures all[i] == ToBits(p[i + 2]) {
      assert p[2..2 + n][i] == p[i + 2];
    }
  }

  method ConvShort(packet: array<bv8>, spi: array<bv8>) returns (len: nat)
    requires packet != spi && IsShort(packet[..]) && 1 + |Pulses(TrackBits(packet[..]))| <= spi.Length
    modifies spi
    ensures Wave(spi[..], len, TrackBits(packet[..]))
  {
    hide Wave, Pulses, Mask, Ones, BytesOf, ToBits, Frame, TrackBits;
    ghost var whole := TrackBits(packet[..]);
    var k, n := packet[0] as int, packet[1] as int;
    ghost var all := BytesOf(packet[..][2..2 + n]);
    ghost var tail := Ones(POSTAMBLE);
    ShortBits(packet[..], k, n, all);
    len := WriteShort(packet, k, n, spi, all, tail, whole);
    assert packet[..] == old(packet[..]);
  }

  method WriteShort(packet: array<bv8>, k: nat, n: nat, spi: array<bv8>, ghost all: seq<Byte>,
    ghost tail: seq<bool>, ghost whole: seq<bool>) returns (len: nat)
    requires packet != spi && 2 + n <= packet.Length
    requires |all| == n && forall i :: 0 <= i < n ==> all[i] == ToBits(packet[i + 2])
    requires whole == Ones(k) + (Frame(all) + tail) && tail == Ones(POSTAMBLE)
    requires 1 + |Pulses(whole)| <= spi.Length
    modifies spi
    ensures Wave(spi[..], len, whole)
  {
    hide Wave, Pulses, Ones, ToBits, Frame;
    spi[0] := 0x00;
    len := 1;
    Started(spi[..]);
    assert [] + whole == whole && [] + Ones(k) == Ones(k) && tail + [] == tail;
    len := AddOnes(k, spi, len, [], Frame(all) + tail, whole);
    len := AddBytes(packet, n, spi, len, all, Ones(k), tail, whole);
    Assoc(Ones(k), Frame(all), tail);
    len := AddOnes(POSTAMBLE, spi, len, Ones(k) + Frame(all), [], whole);
  }

  method AddBytes(packet: array<bv8>, n: nat, spi: array<bv8>, len: nat, ghost all: seq<Byte>,
    ghost done: seq<bool>, ghost tail: seq<bool>, ghost whole: seq<bool>) returns (end: nat)
    requires packet != spi && 2 + n <= packet.Length
    requires |all| == n && forall k :: 0 <= k < n ==> all[k] == ToBits(packet[k + 2])
    requires Wave(spi[..], len, done) && 1 + |Pulses(whole)| <= spi.Length
    requires done + (Frame(all) + tail) == whole
    modifies spi
    ensures Wave(spi[..], end, done + Frame(all))
  {
    hide Wave, Pulses, ToBits, Frame;
    ghost var d := done;
    end := len;
    var i := 0;
    assert all[0..] == all;
    while i < n
      invariant 0 <= i <= n && Wave(spi[..], end, d)
      invariant d + (Frame(all[i..]) + tail) == whole && d + Frame(all[i..]) == done + Frame(all)
    {
      FrameStep(all, i, tail);
      Assoc(d, [false] + all[i], Frame(all[i + 1..]));
      end := AddByte(packet[i + 2], spi, end, d, Frame(all[i + 1..]) + tail, whole);
      d := d + ([false] + all[i]);
      i := i + 1;
    }
    FrameDone(all);
    assert d + [] == d;
  }

  lemma Started(s: seq<bv8>)
    requires |s| >= 1 && s[0] == 0x00
    ensures Wave(s, 1, [])
  {
  }

  lemma FrameStep(all: seq<Byte>, i: nat, tail: seq<bool>)
    requires i < |all|
    ensures Frame(all[i..]) + tail == [false] + (all[i] + (Frame(all[i + 1..]) + tail))
    ensures Frame(all[i..]) == ([false] + all[i]) + Frame(all[i + 1..])
  {
    assert all[i..][1..] == all[i + 1..];
  }

  lemma FrameDone(all: seq<Byte>)
    ensures Frame(all[|all|..]) == []
  {
  }

  method ConvLong(packet: array<bv8>, spi: array<bv8>) returns (len: nat)
    requires packet != spi && IsLong(packet[..]) && 1 + |Pulses(TrackBits(packet[..]))| <= spi.Length
    modifies spi
    ensures Wave(spi[..], len, TrackBits(packet[..]))
  {
    hide Wave, Pulses, StreamBit;
    var n := packet[0] as int;
    ghost var bits := StreamBits(packet[..], n);
    assert TrackBits(packet[..]) == bits + [true];
    assert forall i :: 0 <= i < n ==> StreamBit(packet[..], i) == bits[i];
    hide TrackBits, StreamBits;
    len := WriteLong(packet, n, spi, bits);
    assert packet[..] == old(packet[..]);
  }

  method WriteLong(packet: array<bv8>, n: nat, spi: array<bv8>, ghost bits: seq<bool>) returns (len: nat)
    requires packet != spi && packet.Length > 0 && n == |bits| <= 8 * (packet.Length - 1)
    requires forall i :: 0 <= i < n ==> StreamBit(packet[..], i) == bits[i]
    requires 1 + |Pulses(bits + [true])| <= spi.Length
    modifies spi
    ensures Wave(spi[..], len, bits + [true])
  {
    hide Wave, Pulses, StreamBit;
    ghost var p := packet[..];
    spi[0] := 0x00;
    len := 1;
    Started(spi[..]);
    var i := 0;
    assert bits[..0] == [];
    while i < n
      invariant 0 <= i <= n && Wave(spi[..], len, bits[..i]) && packet[..] == p
    {
      OnTheWay(bits, i);
      len := AddBit(StreamBit(packet[..], i), spi, len, bits[..i], bits[i + 1..] + [true], bits + [true]);
      assert packet[..] == p;
      i := i + 1;
    }
    assert bits[..i] == bits && [true] + [] == [true];
    len := AddBit(true, spi, len, bits, [], bits + [true]);
  }

  /** The pool buffer as pulses; the first byte behind the length picks the format. */
  method ConvertNmraPacketToSpiStream(packet: array<bv8>, spi: array<bv8>) returns (len: nat)
    requires packet != spi && (IsShort(packet[..]) || IsLong(packet[..]))
    requires 1 + |Pulses(TrackBits(packet[..]))| <= spi.Length
    modifies spi
    ensures Wave(spi[..], len, TrackBits(packet[..]))
  {
    hide Wave, Pulses, TrackBits;
    if packet[1] != 0xFF {
      len := ConvShort(packet, spi);
    } else {
      len := ConvLong(packet, spi);
    }
  }

  lemma OnTheWay(bits: seq<bool>, i: nat)
    requires i < |bits|
    ensures bits[..i] + ([bits[i]] + (bits[i + 1..] + [true])) == bits + [true]
    ensures bits[..i] + [bits[i]] == bits[..i + 1]
  {
  }

  // ---------- what the track carries ----------

  lemma {:induction false} ZerosAppend(bits: seq<bool>)
    ensures Zeros(bits + [true]) == Zeros(bits)
  {
    PulsesSnoc(bits, true);
  }

  lemma Unpacked(p: seq<bv8>, bits: seq<bool>)
    requires Carries(p, bits)
    ensures StreamBits(p, |bits|) == bits
  {
    hide StreamBit;
  }

  lemma TrackBytes(bits: seq<bool>)
    requires |bits| < 256
    ensures 1 + |Pulses(bits + [true])| <= 1024
  {
    hide Pulses, Zeros;
    ZerosAppend(bits);
    PulsesLength(bits + [true]);
  }

  /** A packed stream comes out as its bits and one more 1, in a buffer of 256 * 4. */
  lemma CarriedBits(p: seq<bv8>, bits: seq<bool>)
    requires Carries(p, bits) && |bits| >= 8 && forall k :: 0 <= k < 8 ==> bits[k]
    ensures IsLong(p) && TrackBits(p) == bits + [true]
    ensures 1 + |Pulses(TrackBits(p))| <= 1024
  {
    LongFormat(p, bits);
    Unpacked(p, bits);
    TrackBytes(bits);
    hide Holds, StreamBits, Pulses;
  }

  /** A short buffer brings its bytes to every receiver its preamble suffices for. */
  lemma ShortReceived(p: seq<bv8>, need: nat)
    requires IsShort(p) && p[1] as int > 0 && need <= p[0] as int
    ensures Receive(need, Hunt(0), TrackBits(p)) == [BytesOf(p[2..2 + p[1] as int])]
  {
    hide Receive, BytesOf;
    PlainReceived(p[0] as int, BytesOf(p[2..2 + p[1] as int]), need);
  }

  lemma PlainReceived(k: nat, all: seq<Byte>, need: nat)
    requires all != [] && AllBytes(all) && need <= k
    ensures Receive(need, Hunt(0), Ones(k) + (Frame(all) + Ones(POSTAMBLE))) == [all]
  {
    var more := Ones(2);
    OnesFirst(POSTAMBLE, []);
    hide Receive, Ones, Frame;
    var tail := Frame(all[1..]) + ([true] + more);
    ReceiveOnes(need, 0, k, Frame(all) + Ones(POSTAMBLE));
    FrameFirstPlain(all, [true] + more);
    ReceiveBit(need, Hunt(k), false, all[0] + tail);
    ReceiveByte(need, [], [], all[0], tail);
    assert [] + all[0] == all[0];
    ReceiveFrame(need, [], all[0], all[1..], more);
    assert [] + [all[0]] + all[1..] == all;
    assert more + [] == more;
    ReceiveOnes(need, 1, 2, []);
    Silence(need, POSTAMBLE);
    assert [all] + [] == [all];
  }

  lemma FrameFirstPlain(all: seq<Byte>, rest: seq<bool>)
    requires all != []
    ensures Frame(all) + rest == [false] + (all[0] + (Frame(all[1..]) + rest))
  {
  }
}
