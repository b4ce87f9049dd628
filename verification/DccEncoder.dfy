/** The DCC encoder for locomotives: address, speed and function packets in two
    bit streams, packed into the buffers that the refresh pool keeps. */
module DccEncoder {
  import opened Bits
  import opened DccStream
  import opened Sequences

  // ---------- the bytes, field by field ----------

  /** 0AAAAAAA or 11AAAAAA AAAAAAAA */
  function AdrBytes(address: nat, mode: nat): (r: seq<Byte>)
    ensures AllBytes(r) && r != [] && |r| <= 2
  {
    if mode == 1 then [[false] + BitsOf(address, 7)]
    else [[true, true] + BitsOf(address / 256, 6), BitsOf(address, 8)]
  }

  /** 01DCSSSS with C = FL for 14 steps */
  function BaselineByte(forward: bool, speed: nat, fl: bool): (b: Byte)
    ensures |b| == 8
  {
    [false, true, forward, fl] + BitsOf(speed, 4)
  }

  /** 01DCSSSS with C = the lowest bit of the speed for 28 steps; codes 0 and 1 are
      the stops, with C = 0 */
  function Steps28Byte(forward: bool, speed: nat): (b: Byte)
    ensures |b| == 8
  {
    if speed < 2 then [false, true, forward, false] + BitsOf(speed, 4)
    else [false, true, forward, speed % 2 == 1 || speed + 2 >= 32] + BitsOf((speed + 2) / 2, 4)
  }

  /** 00111111 DSSSSSSS */
  function Steps128Bytes(forward: bool, speed: nat): (r: seq<Byte>)
    ensures AllBytes(r) && |r| == 2
  {
    [[false, false, true, true, true, true, true, true], [forward] + BitsOf(speed, 7)]
  }

  /** The instruction for a speed code: 0 stop, 1 emergency stop, n + 1 step n. */
  function SpeedBytes(n_fs: nat, forward: bool, speed: nat, fl: bool): (r: seq<Byte>)
    ensures AllBytes(r) && 1 <= |r| <= 2
  {
    if speed < 2 || n_fs < 15 then [BaselineByte(forward, speed, fl)]
    else if n_fs > 29 then Steps128Bytes(forward, speed)
    else [Steps28Byte(forward, speed)]
  }

  /** 100DDDDD: F0, F4, F3, F2, F1 */
  function GroupOne(func: nat): (b: Byte)
    ensures |b| == 8
  {
    [true, false, false, Bit(func, 0)] + BitsOf(Shr(func, 1), 4)
  }

  /** 1011DDDD: F8 to F5, 1010DDDD: F12 to F9 */
  function GroupTwo(func: nat, lower: bool): (b: Byte)
    ensures |b| == 8
  {
    [true, false, true, lower] + BitsOf(Shr(func, if lower then 5 else 9), 4)
  }

  /** 11011110 DDDDDDDD: F20 to F13, 11011111 DDDDDDDD: F28 to F21 */
  function Expansion(func: nat, upper: bool): (r: seq<Byte>)
    ensures AllBytes(r) && |r| == 2
  {
    [[true, true, false, true, true, true, true, upper], BitsOf(Shr(func, if upper then 21 else 13), 8)]
  }

  // ---------- the packets of a locomotive ----------

  /** What the encoder works on, after its corrections. */
  datatype Order = Order(address: nat, mode: nat, forward: bool, speed: nat, n_fs: nat, func: nat, n_func: nat)

  predicate HasFunctions(o: Order) { o.n_func > 0 && o.n_fs > 14 }

  function ToAddress(o: Order, instr: seq<Byte>): (r: seq<Byte>)
    requires AllBytes(instr)
    ensures AllBytes(r) && r != [] && |r| <= 2 + |instr|
  {
    AdrBytes(o.address, o.mode) + instr
  }

  function SpeedPacket(o: Order): (r: seq<Byte>)
    ensures AllBytes(r) && r != [] && |r| <= 4
  {
    ToAddress(o, SpeedBytes(o.n_fs, o.forward, o.speed, Bit(o.func, 0)))
  }

  /** The packets of the first bit stream. */
  function FirstPackets(o: Order): (ps: seq<seq<Byte>>)
    ensures AllPackets(ps) && ps != []
  {
    [SpeedPacket(o)] +
    (if HasFunctions(o) && o.n_func > 5 then [ToAddress(o, [GroupTwo(o.func, true)])] else []) +
    (if HasFunctions(o) && o.n_func > 12 then [ToAddress(o, Expansion(o.func, false))] else [])
  }

  /** The packets of the second bit stream, which only functions need. */
  function FunctionPackets(o: Order): (ps: seq<seq<Byte>>)
    ensures AllPackets(ps) && ps != []
  {
    [ToAddress(o, [GroupOne(o.func)])] +
    (if o.n_func > 8 then [ToAddress(o, [GroupTwo(o.func, false)])] else []) +
    (if o.n_func > 20 then [ToAddress(o, Expansion(o.func, true))] else [])
  }

  function SecondPackets(o: Order): (ps: seq<seq<Byte>>)
    ensures AllPackets(ps) && ps != []
  {
    if HasFunctions(o) then FunctionPackets(o) else FirstPackets(o)
  }

  // ---------- bytes in the code's arithmetic ----------

  /** A byte put together from two fields, written hi << n | lo. */
  lemma {:induction false} Fields(hi: nat, m: nat, lo: nat, n: nat)
    requires lo < Pow2(n)
    ensures BitsOf(hi * Pow2(n) + lo, m + n) == BitsOf(hi, m) + BitsOf(lo, n)
    decreases n
  {
    var v := hi * Pow2(n) + lo;
    if n == 0 {
    } else {
      assert hi * Pow2(n) == 2 * (hi * Pow2(n - 1));
      assert v / 2 == hi * Pow2(n - 1) + lo / 2 && v % 2 == lo % 2;
      Fields(hi, m, lo / 2, n - 1);
    }
  }

  lemma {:induction false} LowBits(v: nat, q: nat, n: nat)
    ensures BitsOf(v + q * Pow2(n), n) == BitsOf(v, n)
    decreases n
  {
    if n > 0 {
      assert q * Pow2(n) == 2 * (q * Pow2(n - 1));
      LowBits(v / 2, q, n - 1);
    }
  }

  /** v & 0xF */
  lemma Masked(v: nat)
    ensures BitsOf(v % 16, 4) == BitsOf(v, 4)
  {
    assert Pow2(4) == 16;
    LowBits(v % 16, v / 16, 4);
  }

  function Num(b: bool): nat { if b then 1 else 0 }

  lemma OneMore(v: nat, n: nat)
    ensures BitsOf(v, n + 1) == BitsOf(v / 2, n) + [v % 2 == 1]
  {
  }

  lemma Snoc(v: nat, b: bool, n: nat)
    ensures BitsOf(2 * v + Num(b), n + 1) == BitsOf(v, n) + [b]
  {
  }

  lemma Nibble(a: bool, b: bool, c: bool, d: bool)
    ensures BitsOf(8 * Num(a) + 4 * Num(b) + 2 * Num(c) + Num(d), 4) == [a, b, c, d]
  {
    hide BitsOf, Num;
    Snoc(0, a, 0);
    Snoc(Num(a), b, 1);
    Snoc(2 * Num(a) + Num(b), c, 2);
    Snoc(4 * Num(a) + 2 * Num(b) + Num(c), d, 3);
  }

  lemma Sixteen()
    ensures Pow2(4) == 16
  {
  }

  /** A byte from four leading bits and four low bits. */
  lemma TopFields(a: bool, b: bool, c: bool, d: bool, low: nat)
    requires low < 16
    ensures BitsOf(128 * Num(a) + 64 * Num(b) + 32 * Num(c) + 16 * Num(d) + low, 8) == [a, b, c, d] + BitsOf(low, 4)
  {
    hide BitsOf, Num, Pow2;
    var hi := 8 * Num(a) + 4 * Num(b) + 2 * Num(c) + Num(d);
    Sixteen();
    Fields(hi, 4, low, 4);
    Nibble(a, b, c, d);
  }

  lemma SevenBits(v: nat)
    requires v < 128
    ensures BitsOf(v, 8) == [false] + BitsOf(v, 7)
  {
    OneTwentyEight();
    Fields(0, 1, v, 7);
    OneMore(0, 0);
    hide BitsOf, Pow2;
  }

  lemma OneTwentyEight()
    ensures Pow2(7) == 128 && Pow2(6) == 64
  {
  }

  method CalcSingleByte(value: nat) returns (byte: Byte)
    ensures byte == BitsOf(value, 8)
  {
    hide Bit, BitsOf;
    byte := Zero();
    var i, bit := 7, 0;              // bit stands for 1 << bit
    while i >= 0
      invariant -1 <= i <= 7 && bit == 7 - i && |byte| == 8
      invariant forall k :: 0 <= k <= i ==> !byte[k]
      invariant forall k :: i < k < 8 ==> byte[k] == BitsOf(value, 8)[k]
    {
      BitsOfAt(value, 8, i);
      if Bit(value, bit) {
        byte := byte[i := true];
      }
      bit := bit + 1;
      i := i - 1;
    }
  }

  method XorTwoBytes(byte1: Byte, byte2: Byte) returns (byte: Byte)
    requires |byte1| == |byte2| == 8
    ensures byte == Xor8(byte1, byte2)
  {
    byte := Zero();
    var i := 0;
    while i < 8
      invariant 0 <= i <= 8 && |byte| == 8
      invariant forall k :: 0 <= k < i ==> byte[k] == (byte1[k] != byte2[k])
    {
      byte := byte[i := byte1[i] != byte2[i]];
      i := i + 1;
    }
  }

  // ---------- speed and function bytes ----------

  method CalcBaselineSpeedByte(direction: nat, speed: nat, func: nat) returns (byte: Byte)
    requires direction <= 1 && speed < 16
    ensures byte == BaselineByte(direction == 1, speed, Bit(func, 0))
  {
    hide BitsOf, Bit;
    TopFields(false, true, direction == 1, false, speed);
    byte := CalcSingleByte(0x40 + direction * 32 + speed);
    if Bit(func, 0) { byte := byte[3 := true]; }
  }

  method Calc28SpstSpeedByte(direction: nat, speed: nat) returns (byte: Byte)
    requires direction <= 1 && speed <= 30
    ensures byte == Steps28Byte(direction == 1, speed)
  {
    hide BitsOf;
    if speed > 1 {
      var sum := speed + 2;
      TopFields(false, true, direction == 1, sum >= 32, sum / 2 % 16);
      Masked(sum / 2);
      byte := CalcSingleByte(0x40 + direction * 32 + sum / 2);
      if sum % 2 == 1 { byte := byte[3 := true]; }
    } else {
      TopFields(false, true, direction == 1, false, speed);
      byte := CalcSingleByte(0x40 + direction * 32 + speed);
    }
  }

  method Calc128SpstAdvOpBytes(direction: nat, speed: nat) returns (byte1: Byte, byte2: Byte)
    requires direction <= 1 && speed < 128
    ensures [byte1, byte2] == Steps128Bytes(direction == 1, speed)
  {
    hide BitsOf;
    byte1 := [false, false, true, true, true, true, true, true];
    SevenBits(speed);
    byte2 := CalcSingleByte(speed);
    if direction == 1 { byte2 := byte2[0 := true]; }
    assert byte2 == [direction == 1] + BitsOf(speed, 7);
  }

  lemma LowFive(func: nat)
    ensures func % 32 / 2 == func / 2 % 16 && func % 32 % 2 == func % 2
  {
    var q, r := func / 32, func % 32;
    assert func == 2 * (16 * q) + r && func / 2 == 16 * q + r / 2;
  }

  lemma LowestBit(v: nat)
    ensures Bit(v, 0) == (v % 2 == 1) && Shr(v, 1) == v / 2
  {
  }

  method CalcFunctionGroupOneByte(func: nat) returns (byte: Byte)
    ensures byte == GroupOne(func)
  {
    hide BitsOf, Bit, Shr;
    var five := func % 32;
    LowFive(func);
    LowestBit(func);
    LowestBit(five);
    TopFields(true, false, false, false, five / 2);
    Masked(func / 2);
    byte := CalcSingleByte(0x80 + five / 2);
    if Bit(five, 0) { byte := byte[3 := true]; }
  }

  method CalcFunctionGroupTwoByte(func: nat, lower: bool) returns (byte: Byte)
    ensures byte == GroupTwo(func, lower)
  {
    hide Shr, BitsOf;
    var bits;
    if lower {
      bits := Shr(func, 5) % 16;
      Masked(Shr(func, 5));
      TopFields(true, false, true, true, bits);
      bits := bits + 0xB0;
    } else {
      bits := Shr(func, 9) % 16;
      Masked(Shr(func, 9));
      TopFields(true, false, true, false, bits);
      bits := bits + 0xA0;
    }
    byte := CalcSingleByte(bits);
  }

  // ---------- streams ----------

  /** The preamble and the address bytes, ready for an instruction. */
  function AdrStream(adr: seq<Byte>): seq<bool> {
    Ones(PREAMBLE) + Frame(adr) + [false]
  }

  lemma Regroup<T>(o: seq<T>, f: seq<T>, z: seq<T>, i: seq<T>, e: seq<T>, t: seq<T>)
    ensures (o + f + z) + i + z + e + t == o + (f + (z + i + z + e)) + t
  {
  }

  lemma Regroup3<T>(o: seq<T>, f: seq<T>, z: seq<T>, i: seq<T>, j: seq<T>, e: seq<T>, t: seq<T>)
    ensures (o + f + z) + i + z + j + z + e + t == o + (f + (z + i + z + j + z + e)) + t
  {
  }

  lemma OneInstruction(adr: seq<Byte>, i: Byte)
    requires AllBytes(adr) && |i| == 8
    ensures AdrStream(adr) + i + [false] + Xor8(XorAll(adr), i) + [true] == Packet(adr + [i])
  {
    hide Frame, Xor8, XorAll, Ones;
    XorNext(adr, i);
    var e := Xor8(XorAll(adr), i);
    assert adr + [i] + [e] == adr + [i, e];
    FrameConcat(adr, [i, e]);
    FrameTwo(i, e);
    Regroup(Ones(PREAMBLE), Frame(adr), [false], i, e, [true]);
  }

  lemma TwoInstructions(adr: seq<Byte>, i: Byte, j: Byte)
    requires AllBytes(adr) && |i| == 8 && |j| == 8
    ensures AdrStream(adr) + i + [false] + j + [false] + Xor8(Xor8(XorAll(adr), i), j) + [true]
         == Packet(adr + [i, j])
  {
    hide Frame, Xor8, XorAll, Ones;
    XorNext(adr, i);
    XorNext(adr + [i], j);
    var e := Xor8(Xor8(XorAll(adr), i), j);
    assert adr + [i] + [j] == adr + [i, j];
    assert adr + [i, j] + [e] == adr + [i, j, e];
    FrameConcat(adr, [i, j, e]);
    FrameThree(i, j, e);
    Regroup3(Ones(PREAMBLE), Frame(adr), [false], i, j, e, [true]);
  }

  lemma FrameMore(i: Byte, rest: seq<Byte>)
    ensures Frame([i] + rest) == [false] + i + Frame(rest)
  {
    assert ([i] + rest)[1..] == rest;
  }

  lemma FrameOne(i: Byte)
    ensures Frame([i]) == [false] + i
  {
    assert [i] + [] == [i];
    FrameMore(i, []);
  }

  lemma FrameTwo(i: Byte, e: Byte)
    ensures Frame([i, e]) == [false] + i + [false] + e
  {
    hide Frame;
    FrameMore(i, [e]);
    FrameOne(e);
    assert [i] + [e] == [i, e];
    assert [false] + i + ([false] + e) == [false] + i + [false] + e;
  }

  lemma FrameThree(i: Byte, j: Byte, e: Byte)
    ensures Frame([i, j, e]) == [false] + i + [false] + j + [false] + e
  {
    hide Frame;
    FrameMore(i, [j, e]);
    FrameTwo(j, e);
    assert [i] + [j, e] == [i, j, e];
    assert [false] + i + ([false] + j + [false] + e) == [false] + i + [false] + j + [false] + e;
  }

  lemma AdrStreamOne(a: Byte)
    ensures AdrStream([a]) == Ones(PREAMBLE) + [false] + a + [false]
  {
    hide Frame, Ones;
    FrameOne(a);
    Assoc(Ones(PREAMBLE), [false], a);
  }

  lemma AdrStreamTwo(a: Byte, b: Byte)
    ensures AdrStream([a, b]) == Ones(PREAMBLE) + [false] + a + [false] + b + [false]
  {
    hide Frame, Ones;
    FrameTwo(a, b);
    var o := Ones(PREAMBLE);
    assert o + ([false] + a + [false] + b) == o + [false] + a + [false] + b;
  }

  predicate IsAddress(address: nat, mode: nat) {
    1 <= address <= 10239 && (mode == 1 || mode == 2) && (mode == 1 ==> address <= 127)
  }

  lemma LongAdr(high: nat)
    requires high < 64
    ensures BitsOf(0xC0 + high, 8) == [true, true] + BitsOf(high, 6)
  {
    OneTwentyEight();
    Fields(3, 2, high, 6);
    OneMore(3, 1);
    OneMore(1, 0);
    hide BitsOf, Pow2;
  }

  method CalcAddressStream(address: nat, mode: nat) returns (addrstream: seq<bool>, addrerrbyte: Byte)
    requires IsAddress(address, mode)
    ensures addrstream == AdrStream(AdrBytes(address, mode))
    ensures addrerrbyte == XorAll(AdrBytes(address, mode))
  {
    hide BitsOf, Xor8, AdrStream, XorAll, Ones, Frame;
    var addrbyte, addrbyte2 := Zero(), Zero();
    if mode == 1 {
      SevenBits(address);
      addrbyte := CalcSingleByte(address % 128);
      addrerrbyte := addrbyte;
      XorFirst(addrbyte);
    } else {
      LongAdr(address / 256);
      addrbyte2 := CalcSingleByte(address);
      addrbyte := CalcSingleByte(0xC0 + address / 256);
      addrerrbyte := XorTwoBytes(addrbyte, addrbyte2);
      XorFirst(addrbyte);
      XorNext([addrbyte], addrbyte2);
      assert [addrbyte] + [addrbyte2] == [addrbyte, addrbyte2];
    }
    AdrStreamOne(addrbyte);
    AdrStreamTwo(addrbyte, addrbyte2);
    addrstream := Ones(PREAMBLE);
    addrstream := addrstream + [false] + addrbyte + [false];
    if mode == 2 {
      addrstream := addrstream + addrbyte2 + [false];
    }
  }

  // ---------- the function streams ----------

  method AddGroupPacket(ghost adr: seq<Byte>, addrerrbyte: Byte, addrstream: seq<bool>, funcbyte: Byte)
    returns (packet: seq<bool>)
    requires AllBytes(adr) && |funcbyte| == 8
    requires addrstream == AdrStream(adr) && addrerrbyte == XorAll(adr)
    ensures packet == Packet(adr + [funcbyte])
  {
    hide Packet, AdrStream;
    var errdbyte := XorTwoBytes(addrerrbyte, funcbyte);
    packet := addrstream + funcbyte + [false] + errdbyte + [true];
    OneInstruction(adr, funcbyte);
  }

  method AddExpansionPacket(ghost adr: seq<Byte>, addrerrbyte: Byte, addrstream: seq<bool>, funcbyte2: Byte, funcbyte: Byte)
    returns (packet: seq<bool>)
    requires AllBytes(adr) && |funcbyte| == |funcbyte2| == 8
    requires addrstream == AdrStream(adr) && addrerrbyte == XorAll(adr)
    ensures packet == Packet(adr + [funcbyte2, funcbyte])
  {
    hide Packet, AdrStream;
    var errdbyte := XorTwoBytes(addrerrbyte, funcbyte2);
    errdbyte := XorTwoBytes(errdbyte, funcbyte);
    packet := addrstream + funcbyte2 + [false] + funcbyte + [false] + errdbyte + [true];
    TwoInstructions(adr, funcbyte2, funcbyte);
  }

  lemma TrainAppend(ps: seq<seq<Byte>>, p: seq<Byte>)
    requires AllPackets(ps) && ps != [] && p != [] && AllBytes(p)
    ensures Train(ps + [p]) == Train(ps) + Ones(WAIT) + Packet(p)
  {
    assert (ps + [p])[..|ps|] == ps;
  }

  method CalcFunctionStream(stream: seq<bool>, ghost o: Order, addrerrbyte: Byte, addrstream: seq<bool>, func: nat,
    nfuncs: nat) returns (bitstream: seq<bool>, bitstream2: seq<bool>)
    requires o.func == func && o.n_func == nfuncs && HasFunctions(o) && stream == Packet(SpeedPacket(o))
    requires addrstream == AdrStream(AdrBytes(o.address, o.mode))
    requires addrerrbyte == XorAll(AdrBytes(o.address, o.mode))
    ensures bitstream == Train(FirstPackets(o)) && bitstream2 == Train(SecondPackets(o))
  {
    hide Packet, AdrBytes, SpeedPacket, GroupOne, GroupTwo, Expansion, AdrStream, Train, Shr, BitsOf, Ones;
    ghost var adr := AdrBytes(o.address, o.mode);
    ghost var first, second := [SpeedPacket(o)], [ToAddress(o, [GroupOne(func)])];
    bitstream := stream;
    var funcbyte := CalcFunctionGroupOneByte(func);
    bitstream2 := AddGroupPacket(adr, addrerrbyte, addrstream, funcbyte);
    TrainOne(SpeedPacket(o));
    TrainOne(ToAddress(o, [GroupOne(func)]));
    if nfuncs > 5 {
      funcbyte := CalcFunctionGroupTwoByte(func, true);
      var packet := AddGroupPacket(adr, addrerrbyte, addrstream, funcbyte);
      TrainAppend(first, ToAddress(o, [GroupTwo(func, true)]));
      first := first + [ToAddress(o, [GroupTwo(func, true)])];
      bitstream := bitstream + Ones(WAIT) + packet;
      if nfuncs > 8 {
        funcbyte := CalcFunctionGroupTwoByte(func, false);
        packet := AddGroupPacket(adr, addrerrbyte, addrstream, funcbyte);
        TrainAppend(second, ToAddress(o, [GroupTwo(func, false)]));
        second := second + [ToAddress(o, [GroupTwo(func, false)])];
        bitstream2 := bitstream2 + Ones(WAIT) + packet;
        if nfuncs > 12 {
          var funcbyte2 := [true, true, false, true, true, true, true, false];
          funcbyte := CalcSingleByte(Shr(func, 13));
          packet := AddExpansionPacket(adr, addrerrbyte, addrstream, funcbyte2, funcbyte);
          ExpansionIs(func, false);
          TrainAppend(first, ToAddress(o, Expansion(func, false)));
          first := first + [ToAddress(o, Expansion(func, false))];
          bitstream := bitstream + Ones(WAIT) + packet;
          if nfuncs > 20 {
            funcbyte2 := funcbyte2[7 := true];
            assert funcbyte2 == [true, true, false, true, true, true, true, true];
            funcbyte := CalcSingleByte(Shr(func, 21));
            packet := AddExpansionPacket(adr, addrerrbyte, addrstream, funcbyte2, funcbyte);
            ExpansionIs(func, true);
            TrainAppend(second, ToAddress(o, Expansion(func, true)));
            second := second + [ToAddress(o, Expansion(func, true))];
            bitstream2 := bitstream2 + Ones(WAIT) + packet;
          }
        }
      }
    }
    assert first == FirstPackets(o);
    assert second == SecondPackets(o);
  }

  lemma TrainOne(p: seq<Byte>)
    requires p != [] && AllBytes(p)
    ensures Train([p]) == Packet(p)
  {
  }

  lemma ExpansionIs(func: nat, upper: bool)
    ensures Expansion(func, upper)
         == [[true, true, false, true, true, true, true, upper], BitsOf(Shr(func, if upper then 21 else 13), 8)]
  {
  }
}
