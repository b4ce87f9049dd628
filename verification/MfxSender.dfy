/** The methods that build the station's mfx packets in place, and what each of
    them puts on the wire. */
module MfxSender {
  import opened BitBuffer
  import opened Bits
  import opened Locos
  import opened MfxCrc
  import opened MfxPacket
  import opened Options
  import opened Sequences

  const MFX_FX_COUNT := 16

  lemma Bits1Of(x: bool)
    ensures BitsOf(if x then 1 else 0, 1) == [x]
  {
  }

  lemma Bits2Of(x: bool, y: bool)
    ensures BitsOf((if x then 2 else 0) + (if y then 1 else 0), 2) == [x, y]
  {
    Bits1Of(x);
  }

  lemma Bits3Of(x: bool, y: bool, z: bool)
    ensures BitsOf((if x then 4 else 0) + (if y then 2 else 0) + (if z then 1 else 0), 3) == [x, y, z]
  {
    Bits2Of(x, y);
    assert BitsOf((if x then 4 else 0) + (if y then 2 else 0) + (if z then 1 else 0), 3) == [x, y] + [z];
  }

  lemma Bits4Of(x: bool, y: bool, z: bool)
    ensures BitsOf((if x then 4 else 0) + (if y then 2 else 0) + (if z then 1 else 0), 4) == [false, x, y, z]
    ensures BitsOf(8 + (if x then 4 else 0) + (if y then 2 else 0) + (if z then 1 else 0), 4) == [true, x, y, z]
  {
    Bits3Of(false, x, y);
    Bits3Of(true, x, y);
    var v := (if x then 4 else 0) + (if y then 2 else 0) + (if z then 1 else 0);
    assert BitsOf(v, 4) == [false, x, y] + [z];
    assert BitsOf(8 + v, 4) == [true, x, y] + [z];
  }

  /** The command codes 111xyz. */
  lemma Code111(x: bool, y: bool, z: bool)
    ensures BitsOf(0x38 + (if x then 4 else 0) + (if y then 2 else 0) + (if z then 1 else 0), 6) ==
            [true, true, true, x, y, z]
  {
    var v := (if x then 4 else 0) + (if y then 2 else 0) + (if z then 1 else 0);
    assert BitsOf(0x38 + v, 6) == BitsOf(0x1C + v / 2, 5) + [z];
    assert BitsOf(0x1C + v / 2, 5) == BitsOf(0x0E + v / 4, 4) + [y];
    assert BitsOf(0x0E + v / 4, 4) == BitsOf(7, 3) + [x];
    Bits3Of(true, true, true);
  }

  /** ~direction in 32 bits */
  function Complement(direction: int): nat { (0xFFFF_FFFF - direction) % 0x1_0000_0000 }

  lemma NotDirection(direction: int)
    requires IsDirection(direction)
    ensures BitsOf(Complement(direction), 1) == [direction % 2 == 0]
  {
    assert Complement(direction) % 2 == (direction + 1) % 2;
  }

  lemma SpeedLayout(b: seq<bool>, direction: int, speed: nat)
    requires IsDirection(direction)
    ensures var dir := BitsOf(Complement(direction), 1);
            b + SpeedBits(direction % 2 == 0, speed) ==
            if speed % 16 == 0 then b + BitsOf(0, 3) + dir + BitsOf(speed / 16, 3)
            else b + BitsOf(1, 3) + dir + BitsOf(speed, 7)
  {
    Bits3Of(false, false, false);
    Bits3Of(false, false, true);
    NotDirection(direction);
    hide BitsOf, Complement;
    var back := direction % 2 == 0;
    ThreeParts(b, [false, false, false], [back], BitsOf(speed / 16, 3));
    ThreeParts(b, [false, false, true], [back], BitsOf(speed, 7));
  }

  lemma ThreeParts<T>(b: seq<T>, x: seq<T>, y: seq<T>, z: seq<T>)
    ensures b + (x + (y + z)) == b + x + y + z
  {
  }

  /** A packet under construction: the stream buffer and the position in it. */
  class PacketStream {
    const stream: array<bv8>
    var pos: nat
    ghost var bits: seq<bool>

    ghost predicate Valid()
      reads this, stream
    {
      stream.Length == PKTSIZE && |bits| == pos && Holds(stream[..], bits)
    }

    constructor ()
      ensures Valid() && fresh(stream) && bits == []
    {
      stream := new bv8[PKTSIZE](_ => 0);
      pos := 0;
      bits := [];
      new;
      assert forall k :: 0 <= k < PKTSIZE ==> stream[..][k] == 0;
    }

    method Add(v: nat, len: nat)
      requires Valid() && pos + len <= 8 * (PKTSIZE - 1)
      modifies this, stream
      ensures Valid() && bits == old(bits) + BitsOf(v, len)
    {
      pos := AddBits(v, len, stream, pos, bits);
      bits := bits + BitsOf(v, len);
    }

    /** addAdrBits: the shortest of the four address forms. */
    method AddAdr(address: nat)
      requires Valid() && pos == 0
      modifies this, stream
      ensures Valid() && bits == AdrBits(address)
    {
      Bits2Of(true, false);
      Bits3Of(true, true, false);
      Bits4Of(true, true, false);
      Bits4Of(true, true, true);
      hide BitsOf, Holds;
      if address < 128 {
        Add(2, 2);
        Add(address, 7);
      } else if address < 512 {
        Add(6, 3);
        Add(address, 9);
      } else if address < 2048 {
        Add(14, 4);
        Add(address, 11);
      } else {
        Add(15, 4);
        Add(address, 14);
      }
    }

    /** The short speed form when the lowest four bits are zero, else the long one. */
    method AddSpeed(direction: int, speed: nat)
      requires Valid() && pos <= 18 && IsDirection(direction) && speed < 128
      modifies this, stream
      ensures Valid() && bits == old(bits) + SpeedBits(direction % 2 == 0, speed)
    {
      ghost var b := bits;
      var notDirection := Complement(direction);
      hide Complement, BitsOf, Holds, SpeedBits;
      if speed % 16 == 0 {
        Add(0, 3);
        Add(notDirection, 1);
        Add(speed / 16, 3);
      } else {
        Add(1, 3);
        Add(notDirection, 1);
        Add(speed, 7);
      }
      SpeedLayout(b, direction, speed);
    }

    /** 4, 8 or 16 functions, as many as the decoder has. */
    method AddFuncs(funcs: nat, nfuncs: nat)
      requires Valid() && pos <= 40
      modifies this, stream
      ensures Valid() && bits == old(bits) + FuncBits(WidthOf(nfuncs), Low(funcs, WidthOf(nfuncs)))
    {
      Bits3Of(false, true, false);
      Bits4Of(true, true, false);
      Bits4Of(true, true, true);
      LowBits(funcs, WidthOf(nfuncs));
      hide BitsOf, Holds, Low;
      if nfuncs <= 4 {
        Add(2, 3);
        Add(funcs, 4);
      } else if nfuncs <= 8 {
        Add(6, 4);
        Add(funcs, 8);
      } else {
        Add(7, 4);
        Add(funcs, MFX_FX_COUNT);
      }
    }

    method AddCrc()
      requires Valid() && pos + 8 <= 8 * (PKTSIZE - 1)
      modifies this, stream
      ensures Valid() && bits == Closed(old(bits))
    {
      pos := AddCrcBits(stream, pos, bits);
      bits := Closed(bits);
    }

    /** The bits that send_packet takes from the stream; their number fits the
        length byte. */
    method Transmit() returns (packet: seq<bool>)
      requires Valid() && pos < 256
      ensures packet == bits
    {
      packet := StreamBits(stream[..], pos);
    }
  }

  // ---------- the packets, field by field ----------

  lemma AnnounceLayout(u: nat, n: nat)
    ensures AdrBits(0) + BitsOf(0x3D, 6) + BitsOf(u, 32) + BitsOf(n, 16) == CommandBits(Announce(u, n))
  {
    Code111(true, false, true);
    hide BitsOf, AdrBits;
  }

  lemma ExistLayout(a: nat, u: nat)
    ensures AdrBits(a) + BitsOf(0x3C, 6) + BitsOf(u, 32) == CommandBits(Exist(a, u))
  {
    Code111(true, false, false);
    hide BitsOf, AdrBits;
  }

  lemma SearchLayout(n: nat, u: nat)
    ensures AdrBits(0) + BitsOf(0x3A, 6) + BitsOf(n, 6) + BitsOf(u, 32) == CommandBits(Search(n, u))
  {
    Code111(false, true, false);
    hide BitsOf, AdrBits;
  }

  lemma AssignLayout(sid: nat, u: nat)
    ensures AdrBits(0) + BitsOf(0x3B, 6) + BitsOf(sid, 14) + BitsOf(u, 32) == CommandBits(Assign(sid, u))
  {
    Code111(false, true, true);
    hide BitsOf, AdrBits;
  }

  lemma ReadCvLayout(a: nat, cv: nat, i: nat, code: nat)
    ensures AdrBits(a) + BitsOf(0x38, 6) + BitsOf(cv, 10) + BitsOf(i, 6) + BitsOf(code, 2) ==
            CommandBits(ReadCv(a, cv, i, code))
  {
    Code111(false, false, false);
    hide BitsOf, AdrBits;
  }

  lemma WriteCvLayout(a: nat, cv: nat, i: nat, v: nat)
    ensures AdrBits(a) + BitsOf(0x39, 6) + BitsOf(cv, 10) + BitsOf(i, 6) + BitsOf(0, 2) + BitsOf(v, 8) ==
            CommandBits(WriteCv(a, cv, i, v))
  {
    Code111(false, false, true);
    hide BitsOf, AdrBits;
  }

  lemma FunctionLayout(a: nat, f: nat, on: bool)
    ensures AdrBits(a) + BitsOf(4, 3) + BitsOf(f, 7) + BitsOf(0, 1) + BitsOf(if on then 1 else 0, 1) ==
            CommandBits(Function(a, f, on))
  {
    Bits3Of(true, false, false);
    Bits1Of(false);
    Bits1Of(on);
    hide BitsOf, AdrBits;
  }

  // ---------- the senders ----------

  method SendUidAndRegCounter(uid: nat, counter: nat) returns (packet: seq<bool>)
    ensures packet == Closed(CommandBits(Announce(uid, counter)))
  {
    AnnounceLayout(uid, counter);
    var s := new PacketStream();
    s.AddAdr(0);
    s.Add(0x3D, 6);
    s.Add(uid, 32);
    s.Add(counter, 16);
    s.AddCrc();
    packet := s.Transmit();
  }

  method SendDekoderExist(address: nat, uid: nat) returns (packet: seq<bool>)
    ensures packet == Closed(CommandBits(Exist(address, uid)))
  {
    ExistLayout(address, uid);
    var s := new PacketStream();
    s.AddAdr(address);
    s.Add(0x3C, 6);
    s.Add(uid, 32);
    s.AddCrc();
    packet := s.Transmit();
  }

  method SendSearchNewDecoder(uid: nat, count: nat) returns (packet: seq<bool>)
    ensures packet == Closed(CommandBits(Search(count, uid)))
  {
    SearchLayout(count, uid);
    var s := new PacketStream();
    s.AddAdr(0);
    s.Add(0x3A, 6);
    s.Add(count, 6);
    s.Add(uid, 32);
    s.AddCrc();
    packet := s.Transmit();
  }

  method SendAssignSid(uid: nat, sid: nat) returns (packet: seq<bool>)
    ensures packet == Closed(CommandBits(Assign(sid, uid)))
  {
    AssignLayout(sid, uid);
    var s := new PacketStream();
    s.AddAdr(0);
    s.Add(0x3B, 6);
    s.Add(sid, 14);
    s.Add(uid, 32);
    s.AddCrc();
    packet := s.Transmit();
  }

  /** The length code of a read: 1 byte, 2 bytes, and 4 bytes for any other number. */
  function LengthCode(bytes: int): nat {
    if bytes == 1 then 0 else if bytes == 2 then 1 else 2
  }

  method SendReadCv(address: nat, cv: nat, index: nat, bytes: int) returns (packet: seq<bool>)
    ensures packet == Closed(CommandBits(ReadCv(address, cv, index, LengthCode(bytes))))
    ensures |packet| <= 50
  {
    ReadCvLayout(address, cv, index, LengthCode(bytes));
    var s := new PacketStream();
    s.AddAdr(address);
    s.Add(0x38, 6);
    s.Add(cv, 10);
    s.Add(index, 6);
    s.Add(LengthCode(bytes), 2);
    s.AddCrc();
    packet := s.Transmit();
  }

  method SendWriteCv(address: nat, cv: nat, index: nat, value: nat) returns (packet: seq<bool>)
    ensures packet == Closed(CommandBits(WriteCv(address, cv, index, value)))
  {
    WriteCvLayout(address, cv, index, value);
    var s := new PacketStream();
    s.AddAdr(address);
    s.Add(0x39, 6);
    s.Add(cv, 10);
    s.Add(index, 6);
    s.Add(0, 2);
    s.Add(value, 8);
    s.AddCrc();
    packet := s.Transmit();
  }

  method SendLocoFx16To32(address: nat, func: nat, on: bool) returns (packet: seq<bool>)
    ensures packet == Closed(CommandBits(Function(address, func, on)))
  {
    FunctionLayout(address, func, on);
    var s := new PacketStream();
    s.AddAdr(address);
    s.Add(4, 3);
    s.Add(func, 7);
    s.Add(0, 1);
    s.Add(if on then 1 else 0, 1);
    s.AddCrc();
    packet := s.Transmit();
  }

  // ---------- a locomotive command ----------

  /** What a locomotive is told to do; even directions, and that of a terminated
      decoder, are backward. */
  function DriveOf(r: Record): Command {
    var d, w := Heading(r), WidthOf(r.n_func);
    Drive(r.id, d == -1 || d % 2 == 0, SpeedCode(r.speed, r.emergency), w, Low(r.funcs, w))
  }

  /** One packet for every changed function from F16 to F31 on, in ascending order. */
  function FxPackets(id: nat, funcs: nat, changed: nat, i: nat): seq<seq<bool>>
    decreases 32 - i
  {
    if i >= 32 then []
    else (if Bit(changed, i) then [Closed(CommandBits(Function(id, i, Bit(funcs, i))))] else [])
         + FxPackets(id, funcs, changed, i + 1)
  }

  /** All packets of a locomotive command: the drive packet and, with more than 16
      functions, one for each changed function from F16 on. */
  function PacketsOf(r: Record, changed: nat): seq<seq<bool>> {
    [Closed(CommandBits(DriveOf(r)))] + (if r.n_func > 16 then FxPackets(r.id, r.funcs, changed, 16) else [])
  }

  lemma {:induction false} LowBits(v: nat, n: nat)
    ensures BitsOf(Low(v, n), n) == BitsOf(v, n)
  {
    if n > 0 { LowBits(v / 2, n - 1); }
  }

  /** comp_mfx_loco: the drive packet (which also goes into the refresh pool), the
      single-function packets that follow it, and the flags it clears. */
  method CompMfxLoco(glp: Loco) returns (packet: seq<bool>, extra: seq<seq<bool>>)
    requires glp.Valid()
    modifies glp`speedchange, glp`funcschange
    ensures [packet] + extra == PacketsOf(old(glp.AsRecord()), old(glp.funcschange))
    ensures glp.speedchange == old(glp.speedchange) & 0xF8
    ensures glp.funcschange == if glp.n_func > 16 then old(Low(glp.funcschange, 16)) else old(glp.funcschange)
  {
    hide Closed, CommandBits, Low, FxPackets;
    var speed, direction := glp.speed, glp.direction;
    var emergency := glp.TakeFlags();
    if emergency {
      speed := 1;
      direction := glp.cacheddirection;
    } else if speed != 0 {
      speed := speed + 1;
    }
    if direction == -1 { direction := 0; }
    if speed > 127 { speed := 127; }
    ghost var c := DriveOf(old(glp.AsRecord()));
    assert speed == c.speed && c.backward == (direction % 2 == 0);
    packet := LocoPacket(glp.id, direction, speed, glp.funcs, glp.n_func);
    extra := [];
    if glp.n_func > 16 {
      var fxChange := glp.funcschange;
      glp.funcschange := Low(glp.funcschange, 16);
      extra := SendChangedFx(glp.id, glp.funcs, fxChange);
    }
  }

  function WidthOf(nfuncs: nat): nat {
    if nfuncs <= 4 then 4 else if nfuncs <= 8 then 8 else 16
  }

  /** The bits of the drive packet, field by field. */
  method LocoPacket(id: nat, direction: int, speed: nat, funcs: nat, nfuncs: nat) returns (packet: seq<bool>)
    requires IsDirection(direction) && speed < 128
    ensures packet == Closed(CommandBits(Drive(id, direction % 2 == 0, speed, WidthOf(nfuncs), Low(funcs, WidthOf(nfuncs)))))
  {
    var s := new PacketStream();
    s.AddAdr(id);
    s.AddSpeed(direction, speed);
    s.AddFuncs(funcs, nfuncs);
    Assoc(AdrBits(id), SpeedBits(direction % 2 == 0, speed), FuncBits(WidthOf(nfuncs), Low(funcs, WidthOf(nfuncs))));
    s.AddCrc();
    packet := s.Transmit();
  }

  lemma FxStep(id: nat, funcs: nat, changed: nat, i: nat)
    ensures i >= 32 ==> FxPackets(id, funcs, changed, i) == []
    ensures i < 32 ==>
              FxPackets(id, funcs, changed, i) ==
              (if Bit(changed, i) then [Closed(CommandBits(Function(id, i, Bit(funcs, i))))] else [])
              + FxPackets(id, funcs, changed, i + 1)
  {
  }

  /** One packet for every changed function from F16 to F31. */
  method SendChangedFx(id: nat, funcs: nat, fxChange: nat) returns (extra: seq<seq<bool>>)
    ensures extra == FxPackets(id, funcs, fxChange, 16)
  {
    hide Closed, CommandBits, Bit, FxPackets;
    extra := [];
    for i := 16 to 32
      invariant extra + FxPackets(id, funcs, fxChange, i) == FxPackets(id, funcs, fxChange, 16)
    {
      FxStep(id, funcs, fxChange, i);
      if Bit(fxChange, i) {
        var p := SendLocoFx16To32(id, i, Bit(funcs, i));
        Assoc(extra, [p], FxPackets(id, funcs, fxChange, i + 1));
        extra := extra + [p];
      } else {
        Assoc(extra, [], FxPackets(id, funcs, fxChange, i + 1));
        assert extra + [] == extra;
      }
    }
    FxStep(id, funcs, fxChange, 32);
    assert extra + [] == extra;
  }

  /** The drive packet of a locomotive is read back. */
  lemma LocoReadBack(r: Record)
    requires r.id < 16384
    ensures ReadPacket(Closed(CommandBits(DriveOf(r)))) == Some(DriveOf(r))
  {
    LowIs(r.funcs, WidthOf(r.n_func));
    PacketReadBack(DriveOf(r));
  }
}
