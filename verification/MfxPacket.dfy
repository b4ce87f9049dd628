/** mfx packets: the bit stream buffer, the field builder with its prefix-coded
    address, the commands the station sends, and a decoder that reads them. */
module MfxPacket {
  import opened BitBuffer
  import opened BitStrings
  import opened Bits
  import opened MfxCrc
  import opened Options

  // ---------- the field builder ----------

  method AddBits(bits: nat, len: nat, stream: array<bv8>, pos: nat, ghost b: seq<bool>) returns (end: nat)
    requires |b| == pos && pos + len <= 8 * (stream.Length - 1) && Holds(stream[..], b)
    modifies stream
    ensures end == pos + len && Holds(stream[..], b + BitsOf(bits, len))
  {
    hide Holds, StreamBit, Mask, BitsOf;
    end := pos;
    var maske := len;              // 1 << (maske - 1) is the bit to test next
    ghost var w := b;
    assert b + BitsOf(bits, len)[..0] == b;
    while maske > 0
      invariant 0 <= maske <= len && end == pos + len - maske
      invariant w == b + BitsOf(bits, len)[..len - maske] && Holds(stream[..], w)
    {
      maske := maske - 1;
      BitsOfAt(bits, len, len - 1 - maske);
      ghost var before := stream[..];
      if Bit(bits, maske) {
        SetStreamBit(before, w);
        stream[1 + end / 8] := stream[1 + end / 8] | Mask(end % 8);
        assert stream[..] == before[1 + end / 8 := before[1 + end / 8] | Mask(end % 8)];
      } else {
        SkipStreamBit(before, w);
      }
      w := w + [Bit(bits, maske)];
      end := end + 1;
    }
    assert BitsOf(bits, len)[..len] == BitsOf(bits, len);
  }

  /** The CRC step of addCRCBits on its 16-bit variable. */
  function CrcStep16(crc: bv16, b: bool): bv16 {
    var c := (crc << 1) + (if b then 1 else 0);
    if c & 0x0100 != 0 then (c & 0x00FF) ^ 0x07 else c
  }

  lemma CrcStep16Is(r: bv8, b: bool)
    ensures CrcStep16(r as bv16, b) == CrcBit(r, b) as bv16
  {
  }

  method AddCrcBits(stream: array<bv8>, pos: nat, ghost b: seq<bool>) returns (end: nat)
    requires |b| == pos && pos + 8 <= 8 * (stream.Length - 1) && Holds(stream[..], b)
    modifies stream
    ensures end == pos + 8 && Holds(stream[..], Closed(b))
  {
    hide CrcStep16, CrcBit, ToBits, Mask;
    var crc: bv16 := 0x007F;
    ghost var r := PACKET_SEED;
    ZerosAre();
    ghost var padded := b + Zeros8();
    var i := 0;
    while i < pos + 8
      invariant 0 <= i <= pos + 8 && Holds(stream[..], b)
      invariant r == CrcRun(PACKET_SEED, padded[..i]) && crc == r as bv16
    {
      assert StreamBit(stream[..], i) == padded[i];
      RunSnoc(PACKET_SEED, padded, i);
      CrcStep16Is(r, padded[i]);
      r := CrcBit(r, padded[i]);
      crc := CrcStep16(crc, StreamBit(stream[..], i));
      i := i + 1;
    }
    assert padded[..pos + 8] == padded;
    NarrowIs(r);
    WriteBack(ToBits(r));
    end := AddBits(ValueOf(ToBits(crc as bv8)), 8, stream, pos, b);
  }

  lemma RunSnoc(r: bv8, s: seq<bool>, i: nat)
    requires i < |s|
    ensures CrcRun(r, s[..i + 1]) == CrcBit(CrcRun(r, s[..i]), s[i])
  {
    hide CrcBit;
    assert s[..i + 1] == s[..i] + [s[i]];
    RunConcat(r, s[..i], [s[i]]);
    assert [s[i]][1..] == [];
  }

  lemma ZerosAre()
    ensures Zeros8() == [false, false, false, false, false, false, false, false]
  {
  }

  lemma NarrowIs(r: bv8)
    ensures r as bv16 <= 0xFF && (r as bv16) as bv8 == r
  {
  }

  // ---------- commands ----------

  datatype Command =
    | Drive(addr: nat, backward: bool, speed: nat, width: nat, funcs: nat)
    | Function(addr: nat, func: nat, on: bool)
    | ReadCv(addr: nat, cv: nat, index: nat, code: nat)
    | WriteCv(addr: nat, cv: nat, index: nat, value: nat)
    | Search(count: nat, uid: nat)
    | Assign(sid: nat, uid: nat)
    | Exist(addr: nat, uid: nat)
    | Announce(uid: nat, counter: nat)

  predicate Valid(c: Command) {
    match c
    case Drive(a, _, v, w, f) => a < 16384 && v < 128 && w in {4, 8, 16} && f < Pow2(w)
    case Function(a, f, _) => a < 16384 && f < 128
    case ReadCv(a, cv, i, code) => a < 16384 && cv < 1024 && i < 64 && code < 4
    case WriteCv(a, cv, i, v) => a < 16384 && cv < 1024 && i < 64 && v < 256
    case Search(n, u) => n < 64 && u < Pow2(32)
    case Assign(sid, u) => sid < 16384 && u < Pow2(32)
    case Exist(a, u) => a < 16384 && u < Pow2(32)
    case Announce(u, n) => u < Pow2(32) && n < 65536
  }

  function AdrBits(a: nat): seq<bool> {
    if a < 128 then [true, false] + BitsOf(a, 7)
    else if a < 512 then [true, true, false] + BitsOf(a, 9)
    else if a < 2048 then [true, true, true, false] + BitsOf(a, 11)
    else [true, true, true, true] + BitsOf(a, 14)
  }

  /** Short form when the lowest four bits of the speed are zero. */
  function SpeedBits(backward: bool, speed: nat): seq<bool> {
    if speed % 16 == 0 then [false, false, false] + ([backward] + BitsOf(speed / 16, 3))
    else [false, false, true] + ([backward] + BitsOf(speed, 7))
  }

  function FuncBits(width: nat, funcs: nat): seq<bool> {
    (if width == 4 then [false, true, false]
     else if width == 8 then [false, true, true, false]
     else [false, true, true, true]) + BitsOf(funcs, width)
  }

  function BodyBits(c: Command): seq<bool> {
    match c
    case Drive(_, back, v, w, f) => SpeedBits(back, v) + FuncBits(w, f)
    case Function(_, f, on) => [true, false, false] + (BitsOf(f, 7) + [false, on])
    case ReadCv(_, cv, i, code) => [true, true, true, false, false, false] + (BitsOf(cv, 10) + (BitsOf(i, 6) + BitsOf(code, 2)))
    case WriteCv(_, cv, i, v) => [true, true, true, false, false, true] + (BitsOf(cv, 10) + (BitsOf(i, 6) + (BitsOf(0, 2) + BitsOf(v, 8))))
    case Search(n, u) => [true, true, true, false, true, false] + (BitsOf(n, 6) + BitsOf(u, 32))
    case Assign(sid, u) => [true, true, true, false, true, true] + (BitsOf(sid, 14) + BitsOf(u, 32))
    case Exist(_, u) => [true, true, true, true, false, false] + BitsOf(u, 32)
    case Announce(u, n) => [true, true, true, true, false, true] + (BitsOf(u, 32) + BitsOf(n, 16))
  }

  function AdrOf(c: Command): nat {
    if c.Search? || c.Assign? || c.Announce? then 0 else c.addr
  }

  /** A command on the wire, without its checksum. */
  function CommandBits(c: Command): seq<bool> {
    AdrBits(AdrOf(c)) + BodyBits(c)
  }

  // ---------- the decoder's side ----------

  function Field(s: seq<bool>, n: nat): Option<(nat, seq<bool>)> {
    if |s| < n then None else Some((ValueOf(s[..n]), s[n..]))
  }

  predicate Starts(s: seq<bool>, code: seq<bool>) {
    |code| <= |s| && s[..|code|] == code
  }

  /** 10, 110, 1110 and 1111 announce 7, 9, 11 and 14 address bits. */
  function ReadAdr(s: seq<bool>): Option<(nat, seq<bool>)> {
    if Starts(s, [true, false]) then Field(s[2..], 7)
    else if Starts(s, [true, true, false]) then Field(s[3..], 9)
    else if Starts(s, [true, true, true, false]) then Field(s[4..], 11)
    else if Starts(s, [true, true, true, true]) then Field(s[4..], 14)
    else None
  }

  function ReadFuncs(addr: nat, back: bool, speed: nat, s: seq<bool>): Option<Command> {
    var w := if Starts(s, [false, true, false]) then 4
             else if Starts(s, [false, true, true, false]) then 8 else 16;
    if w == 16 && !Starts(s, [false, true, true, true]) then None
    else
      var (f, rest) :- Field(s[if w == 4 then 3 else 4..], w);
      if rest != [] then None else Some(Drive(addr, back, speed, w, f))
  }

  function ReadDrive(addr: nat, short: bool, s: seq<bool>): Option<Command> {
    var (back, rest) :- Field(s, 1);
    var (v, rest) :- Field(rest, if short then 3 else 7);
    ReadFuncs(addr, back == 1, if short then 16 * v else v, rest)
  }

  function ReadFunction(addr: nat, s: seq<bool>): Option<Command> {
    var (f, rest) :- Field(s, 7);
    if |rest| == 2 && !rest[0] then Some(Function(addr, f, rest[1])) else None
  }

  function ReadReadCv(addr: nat, s: seq<bool>): Option<Command> {
    var (cv, rest) :- Field(s, 10);
    var (i, rest) :- Field(rest, 6);
    var (code, rest) :- Field(rest, 2);
    if rest == [] then Some(ReadCv(addr, cv, i, code)) else None
  }

  function ReadWriteCv(addr: nat, s: seq<bool>): Option<Command> {
    var (cv, rest) :- Field(s, 10);
    var (i, rest) :- Field(rest, 6);
    var (code, rest) :- Field(rest, 2);
    var (v, rest) :- Field(rest, 8);
    if code == 0 && rest == [] then Some(WriteCv(addr, cv, i, v)) else None
  }

  function ReadTwo(s: seq<bool>, n: nat, m: nat): Option<(nat, nat)> {
    var (x, rest) :- Field(s, n);
    var (y, rest) :- Field(rest, m);
    if rest == [] then Some((x, y)) else None
  }

  function ReadBody(addr: nat, s: seq<bool>): Option<Command> {
    if Starts(s, [false, false, false]) then ReadDrive(addr, true, s[3..])
    else if Starts(s, [false, false, true]) then ReadDrive(addr, false, s[3..])
    else if Starts(s, [true, false, false]) then ReadFunction(addr, s[3..])
    else if Starts(s, [true, true, true, false, false, false]) then ReadReadCv(addr, s[6..])
    else if Starts(s, [true, true, true, false, false, true]) then ReadWriteCv(addr, s[6..])
    else if Starts(s, [true, true, true, false, true, false]) then
      var (n, u) :- ReadTwo(s[6..], 6, 32);
      if addr == 0 then Some(Search(n, u)) else None
    else if Starts(s, [true, true, true, false, true, true]) then
      var (sid, u) :- ReadTwo(s[6..], 14, 32);
      if addr == 0 then Some(Assign(sid, u)) else None
    else if Starts(s, [true, true, true, true, false, false]) then
      var (u, _) :- ReadTwo(s[6..], 32, 0);
      Some(Exist(addr, u))
    else if Starts(s, [true, true, true, true, false, true]) then
      var (u, n) :- ReadTwo(s[6..], 32, 16);
      if addr == 0 then Some(Announce(u, n)) else None
    else None
  }

  /** A decoder rejects a packet with a non-zero residue, drops the checksum and
      takes the rest apart. */
  function ReadPacket(s: seq<bool>): Option<Command> {
    if |s| < 8 || !Intact(s) then None
    else
      var (addr, rest) :- ReadAdr(s[..|s| - 8]);
      ReadBody(addr, rest)
  }

  // ---------- what is sent is what is read ----------

  lemma FieldRead(v: nat, n: nat, rest: seq<bool>)
    requires v < Pow2(n)
    ensures Field(BitsOf(v, n) + rest, n) == Some((v, rest))
  {
    FieldBack(v, n, rest);
  }

  lemma LastField(v: nat, n: nat)
    requires v < Pow2(n)
    ensures Field(BitsOf(v, n), n) == Some((v, []))
  {
    assert BitsOf(v, n) + [] == BitsOf(v, n);
    FieldRead(v, n, []);
  }

  lemma Powers()
    ensures Pow2(0) == 1 && Pow2(1) == 2 && Pow2(2) == 4 && Pow2(3) == 8 && Pow2(4) == 16
    ensures Pow2(6) == 64 && Pow2(7) == 128 && Pow2(8) == 256 && Pow2(9) == 512 && Pow2(10) == 1024
    ensures Pow2(11) == 2048 && Pow2(14) == 16384 && Pow2(16) == 65536
  {
  }

  /** The address code is prefix-free and reads back every address below 16384. */
  lemma AdrReadBack(a: nat, rest: seq<bool>)
    requires a < 16384
    ensures ReadAdr(AdrBits(a) + rest) == Some((a, rest))
  {
    Powers();
    hide BitsOf, Pow2, Field;
    var s := AdrBits(a) + rest;
    if a < 128 {
      FieldRead(a, 7, rest);
      assert s[2..] == BitsOf(a, 7) + rest;
    } else if a < 512 {
      FieldRead(a, 9, rest);
      assert s[3..] == BitsOf(a, 9) + rest;
      assert s[..3][1] && s[..2][1];
    } else if a < 2048 {
      FieldRead(a, 11, rest);
      assert s[4..] == BitsOf(a, 11) + rest;
      assert s[..2][1] && s[..3][2];
    } else {
      FieldRead(a, 14, rest);
      assert s[4..] == BitsOf(a, 14) + rest;
      assert s[..2][1] && s[..3][2] && s[..4][3];
    }
  }

  lemma FuncsReadBack(addr: nat, back: bool, speed: nat, w: nat, f: nat)
    requires w in {4, 8, 16} && f < Pow2(w)
    ensures ReadFuncs(addr, back, speed, FuncBits(w, f)) == Some(Drive(addr, back, speed, w, f))
  {
    hide BitsOf, Pow2, Field;
    var s := FuncBits(w, f);
    LastField(f, w);
    assert s[if w == 4 then 3 else 4..] == BitsOf(f, w);
    assert s[..3][2] == (w != 4);
    if w != 4 { assert s[..4][3] == (w == 16); }
  }

  /** The short form carries speed / 16 in three bits, the long one seven bits. */
  lemma DriveReadBack(addr: nat, back: bool, x: nat, short: bool, rest: seq<bool>)
    requires x < if short then 8 else 128
    ensures ReadDrive(addr, short, [back] + (BitsOf(x, if short then 3 else 7) + rest)) ==
            ReadFuncs(addr, back, if short then 16 * x else x, rest)
  {
    Powers();
    var n := if short then 3 else 7;
    var bit := if back then 1 else 0;
    assert BitsOf(bit, 1) == [back];
    hide BitsOf, Pow2, Field, ReadFuncs;
    FieldRead(bit, 1, BitsOf(x, n) + rest);
    FieldRead(x, n, rest);
  }

  /** The body of a drive command: three bits of code, then what DriveReadBack reads. */
  lemma DriveBody(back: bool, v: nat, fs: seq<bool>)
    ensures var n, x := if v % 16 == 0 then 3 else 7, if v % 16 == 0 then v / 16 else v;
            var s := SpeedBits(back, v) + fs;
            && s == [false, false, v % 16 != 0] + ([back] + (BitsOf(x, n) + fs))
            && |s| >= 3 && s[..3] == [false, false, v % 16 != 0] && s[3..] == [back] + (BitsOf(x, n) + fs)
  {
    hide BitsOf;
  }

  lemma TwoReadBack(x: nat, n: nat, y: nat, m: nat)
    requires x < Pow2(n) && y < Pow2(m)
    ensures ReadTwo(BitsOf(x, n) + BitsOf(y, m), n, m) == Some((x, y))
  {
    hide BitsOf, Field, Pow2;
    FieldRead(x, n, BitsOf(y, m));
    LastField(y, m);
  }

  lemma FunctionReadBack(addr: nat, f: nat, on: bool)
    requires f < 128
    ensures ReadFunction(addr, BitsOf(f, 7) + [false, on]) == Some(Function(addr, f, on))
  {
    Powers();
    hide BitsOf, Field, Pow2;
    FieldRead(f, 7, [false, on]);
  }

  lemma ReadCvReadBack(addr: nat, cv: nat, i: nat, code: nat)
    requires cv < 1024 && i < 64 && code < 4
    ensures ReadReadCv(addr, BitsOf(cv, 10) + (BitsOf(i, 6) + BitsOf(code, 2))) == Some(ReadCv(addr, cv, i, code))
  {
    Powers();
    hide BitsOf, Field, Pow2;
    FieldRead(cv, 10, BitsOf(i, 6) + BitsOf(code, 2));
    FieldRead(i, 6, BitsOf(code, 2));
    LastField(code, 2);
  }

  lemma WriteCvReadBack(addr: nat, cv: nat, i: nat, v: nat)
    requires cv < 1024 && i < 64 && v < 256
    ensures ReadWriteCv(addr, BitsOf(cv, 10) + (BitsOf(i, 6) + (BitsOf(0, 2) + BitsOf(v, 8)))) == Some(WriteCv(addr, cv, i, v))
  {
    Powers();
    hide BitsOf, Field, Pow2;
    FieldRead(cv, 10, BitsOf(i, 6) + (BitsOf(0, 2) + BitsOf(v, 8)));
    FieldRead(i, 6, BitsOf(0, 2) + BitsOf(v, 8));
    FieldRead(0, 2, BitsOf(v, 8));
    LastField(v, 8);
  }

  lemma Code3(s: seq<bool>, rest: seq<bool>, x: bool, y: bool, z: bool)
    requires s == [x, y, z] + rest
    ensures s[3..] == rest && s[..3] == [x, y, z]
  {
  }

  lemma Code6(s: seq<bool>, rest: seq<bool>, x: bool, y: bool, z: bool)
    requires s == [true, true, true, x, y, z] + rest
    ensures s[6..] == rest && s[..6] == [true, true, true, x, y, z] && s[..3] == [true, true, true]
  {
  }

  lemma BodyReadBack(c: Command)
    requires Valid(c)
    ensures ReadBody(AdrOf(c), BodyBits(c)) == Some(c)
  {
    Powers();
    hide BitsOf, ReadDrive, ReadFunction, ReadReadCv, ReadWriteCv, ReadTwo, SpeedBits, FuncBits, Pow2;
    var s := BodyBits(c);
    match c
    case Drive(a, back, v, w, f) =>
      FuncsReadBack(a, back, v, w, f);
      DriveReadBack(a, back, if v % 16 == 0 then v / 16 else v, v % 16 == 0, FuncBits(w, f));
      DriveBody(back, v, FuncBits(w, f));
      hide ReadFuncs;
      if v % 16 != 0 { assert s[..3][2]; }
    case Function(a, f, on) =>
      FunctionReadBack(a, f, on);
      Code3(s, BitsOf(f, 7) + [false, on], true, false, false);
    case ReadCv(a, cv, i, code) =>
      ReadCvReadBack(a, cv, i, code);
      Code6(s, BitsOf(cv, 10) + (BitsOf(i, 6) + BitsOf(code, 2)), false, false, false);
    case WriteCv(a, cv, i, v) =>
      WriteCvReadBack(a, cv, i, v);
      Code6(s, BitsOf(cv, 10) + (BitsOf(i, 6) + (BitsOf(0, 2) + BitsOf(v, 8))), false, false, true);
    case Search(n, u) =>
      TwoReadBack(n, 6, u, 32);
      Code6(s, BitsOf(n, 6) + BitsOf(u, 32), false, true, false);
    case Assign(sid, u) =>
      TwoReadBack(sid, 14, u, 32);
      Code6(s, BitsOf(sid, 14) + BitsOf(u, 32), false, true, true);
    case Exist(a, u) =>
      TwoReadBack(u, 32, 0, 0);
      assert BitsOf(u, 32) + BitsOf(0, 0) == BitsOf(u, 32);
      Code6(s, BitsOf(u, 32), true, false, false);
    case Announce(u, n) =>
      TwoReadBack(u, 32, n, 16);
      Code6(s, BitsOf(u, 32) + BitsOf(n, 16), true, false, true);
  }

  /** Every command the station can send is read back by the decoder, checksum,
      prefix-coded address, speed form and all. */
  lemma PacketReadBack(c: Command)
    requires Valid(c)
    ensures ReadPacket(Closed(CommandBits(c))) == Some(c)
  {
    var s := Closed(CommandBits(c));
    ClosedIsIntact(CommandBits(c));
    assert s[..|s| - 8] == CommandBits(c);
    AdrReadBack(AdrOf(c), BodyBits(c));
    BodyReadBack(c);
  }
}
