/** The 8-bit CRC of the mfx protocol: the bit-serial form that closes every
    packet, the byte form that checks a decoder's reply, and what they detect. */
module MfxCrc {
  import opened BitStrings

  const PACKET_SEED: bv8 := 0x7F
  const REPLY_SEED: bv8 := 0xFF

  /** One bit through the register, polynomial x^8 + x^2 + x + 1. */
  function CrcBit(r: bv8, b: bool): bv8 {
    ((r << 1) | (if b then 1 else 0)) ^ (if r & 0x80 != 0 then 7 else 0)
  }

  function CrcRun(r: bv8, s: seq<bool>): bv8
    decreases |s|
  {
    if s == [] then r else CrcRun(CrcBit(r, s[0]), s[1..])
  }

  /** Four zero bits through the register at once. */
  function Nibble(r: bv8): bv8 {
    (r << 4) ^ (r >> 4) ^ ((r >> 4) << 1) ^ ((r >> 4) << 2)
  }

  /** Eight bits through the register at once. */
  function CrcByte(r: bv8, x: bv8): bv8 {
    Xor(Nibble(Nibble(r)), x)
  }

  function Xor(x: bv8, y: bv8): bv8 { x ^ y }

  function Push(y: bv8, b: bool): bv8 { (y << 1) | (if b then 1 else 0) }

  /** A bit is added below whatever the register holds. */
  predicate Room1(y: bv8) { y & 0x80 == 0 }

  predicate Room4(y: bv8) { y & 0xF0 == 0 }

  lemma BitIsAdded(g: bv8, y: bv8, b: bool)
    requires Room1(y)
    ensures CrcBit(Xor(g, y), b) == Xor(CrcBit(g, false), Push(y, b))
  {
    PushSplit(g, y);
    PushBelow(g << 1, y << 1, if g & 0x80 != 0 then 7 else 0, b);
  }

  lemma PushSplit(g: bv8, y: bv8)
    requires y & 0x80 == 0
    ensures (g ^ y) & 0x80 == g & 0x80
    ensures (g ^ y) << 1 == (g << 1) ^ (y << 1)
    ensures (g << 1) & 1 == 0 && (y << 1) & 1 == 0
  {
  }

  lemma PushBelow(g: bv8, y: bv8, t: bv8, b: bool)
    requires g & 1 == 0 && y & 1 == 0
    ensures ((g ^ y) | (if b then 1 else 0)) ^ t == ((g | 0) ^ t) ^ (y | (if b then 1 else 0))
  {
  }

  lemma TwoZeros(r: bv8)
    ensures CrcBit(CrcBit(r, false), false) == (r << 2) ^ (r >> 6) ^ ((r >> 6) << 1) ^ ((r >> 6) << 2)
  {
  }

  lemma FourZeros(r: bv8)
    ensures CrcBit(CrcBit(CrcBit(CrcBit(r, false), false), false), false) == Nibble(r)
  {
    TwoZeros(r);
    TwoZeros(CrcBit(CrcBit(r, false), false));
  }

  function Push4(y: bv8, s: seq<bool>): bv8
    requires |s| == 4
  {
    Push(Push(Push(Push(y, s[0]), s[1]), s[2]), s[3])
  }

  lemma PushRoom(y: bv8, b0: bool, b1: bool, b2: bool)
    requires Room4(y)
    ensures Room1(y) && Room1(Push(y, b0)) && Room1(Push(Push(y, b0), b1))
    ensures Room1(Push(Push(Push(y, b0), b1), b2))
  {
  }

  /** Four bits move the register by Nibble and are added below it. */
  lemma FourBits(g: bv8, y: bv8, s: seq<bool>)
    requires |s| == 4 && Room4(y)
    ensures CrcRun(Xor(g, y), s) == Xor(Nibble(g), Push4(y, s))
  {
    PushRoom(y, s[0], s[1], s[2]);
    hide CrcBit, Nibble, Push, Xor, Room1, Room4;
    var g1 := CrcBit(g, false);
    var g2 := CrcBit(g1, false);
    var g3 := CrcBit(g2, false);
    var y1 := Push(y, s[0]);
    var y2 := Push(y1, s[1]);
    var y3 := Push(y2, s[2]);
    FourZeros(g);
    BitIsAdded(g, y, s[0]);
    BitIsAdded(g1, y1, s[1]);
    BitIsAdded(g2, y2, s[2]);
    BitIsAdded(g3, y3, s[3]);
    assert s[1..][1..] == s[2..] && s[2..][1..] == s[3..] && s[3..][1..] == [];
    assert CrcRun(Xor(g, y), s) == CrcRun(Xor(g1, y1), s[1..]);
    assert CrcRun(Xor(g1, y1), s[1..]) == CrcRun(Xor(g2, y2), s[2..]);
    assert CrcRun(Xor(g2, y2), s[2..]) == CrcRun(Xor(g3, y3), s[3..]);
    assert CrcRun(Xor(g3, y3), s[3..]) == CrcBit(Xor(g3, y3), s[3]);
  }

  lemma Halves(x: bv8)
    ensures Push4(0, ToBits(x)[..4]) == x >> 4
    ensures Room4(0) && Room4(x >> 4)
    ensures Push4(x >> 4, ToBits(x)[4..]) == x
  {
  }

  lemma XorZero(r: bv8)
    ensures Xor(r, 0) == r
  {
  }

  /** Eight bit steps are one CrcByte. */
  lemma RunIsByte(r: bv8, x: bv8)
    ensures CrcRun(r, ToBits(x)) == CrcByte(r, x)
  {
    hide CrcRun, Nibble, Xor, Push4, ToBits;
    var s := ToBits(x);
    assert s == s[..4] + s[4..];
    RunConcat(r, s[..4], s[4..]);
    XorZero(r);
    Halves(x);
    FourBits(r, 0, s[..4]);
    FourBits(Nibble(r), x >> 4, s[4..]);
  }

  lemma {:induction false} RunConcat(r: bv8, s: seq<bool>, t: seq<bool>)
    ensures CrcRun(r, s + t) == CrcRun(CrcRun(r, s), t)
    decreases |s|
  {
    if s == [] {
      assert s + t == t;
    } else {
      assert (s + t)[1..] == s[1..] + t;
      RunConcat(CrcBit(r, s[0]), s[1..], t);
    }
  }

  lemma ByteInjective(r: bv8, x: bv8, y: bv8)
    requires CrcByte(r, x) == CrcByte(r, y)
    ensures x == y
  {
    XorCancels(Nibble(Nibble(r)), x, y);
  }

  lemma XorCancels(g: bv8, x: bv8, y: bv8)
    requires Xor(g, x) == Xor(g, y)
    ensures x == y
  {
  }

  lemma BitInjective(r: bv8, q: bv8, b: bool)
    requires CrcBit(r, b) == CrcBit(q, b)
    ensures r == q
  {
  }

  lemma {:induction false} RunInjective(r: bv8, q: bv8, s: seq<bool>)
    requires CrcRun(r, s) == CrcRun(q, s)
    ensures r == q
    decreases |s|
  {
    if s != [] {
      RunInjective(CrcBit(r, s[0]), CrcBit(q, s[0]), s[1..]);
      BitInjective(r, q, s[0]);
    }
  }

  // ---------- closing a packet ----------

  function Zeros8(): seq<bool> { ToBits(0) }

  /** A packet with its checksum, as addCRCBits leaves it: the register runs over
      the packet and eight further zero bits, and is appended. */
  function Closed(s: seq<bool>): seq<bool> {
    s + ToBits(CrcRun(PACKET_SEED, s + Zeros8()))
  }

  predicate Intact(s: seq<bool>) {
    CrcRun(PACKET_SEED, s) == 0
  }

  /** Every closed packet has residue zero over its whole length. */
  lemma ClosedIsIntact(s: seq<bool>)
    ensures Intact(Closed(s))
  {
    var r := CrcRun(PACKET_SEED, s);
    var c := CrcRun(PACKET_SEED, s + Zeros8());
    RunConcat(PACKET_SEED, s, Zeros8());
    RunConcat(PACKET_SEED, s, ToBits(c));
    RunIsByte(r, 0);
    RunIsByte(r, c);
  }

  /** Any change confined to a window of eight bits is detected. */
  lemma BurstDetected(s: seq<bool>, t: seq<bool>, i: nat)
    requires |s| == |t| && i + 8 <= |s| && s != t
    requires forall j :: 0 <= j < |s| && !(i <= j < i + 8) ==> s[j] == t[j]
    requires Intact(s)
    ensures !Intact(t)
  {
    hide CrcRun, CrcByte, ToBits, FromBits;
    var u, v := s[i..i + 8], t[i..i + 8];
    var p, q := s[..i], s[i + 8..];
    assert s == p + (u + q) && t == p + (v + q);
    var r := CrcRun(PACKET_SEED, p);
    RunConcat(PACKET_SEED, p, u + q);
    RunConcat(PACKET_SEED, p, v + q);
    RunConcat(r, u, q);
    RunConcat(r, v, q);
    if Intact(t) {
      RunInjective(CrcRun(r, u), CrcRun(r, v), q);
      ToFromBits(u);
      ToFromBits(v);
      RunIsByte(r, FromBits(u));
      RunIsByte(r, FromBits(v));
      ByteInjective(r, FromBits(u), FromBits(v));
    }
  }

  /** Parity of a register. */
  function Odd(r: bv8): bool {
    var a := r ^ (r >> 4);
    var b := a ^ (a >> 2);
    (b ^ (b >> 1)) & 1 == 1
  }

  lemma BitParity(r: bv8, b: bool)
    ensures Odd(CrcBit(r, b)) == (Odd(r) != b)
  {
  }

  /** The polynomial has x + 1 as a factor: the register carries the parity. */
  lemma {:induction false} RunParity(r: bv8, s: seq<bool>)
    ensures Odd(CrcRun(r, s)) == (Odd(r) != OddOnes(s))
    decreases |s|
  {
    if s != [] {
      BitParity(r, s[0]);
      RunParity(CrcBit(r, s[0]), s[1..]);
    }
  }

  /** Any odd number of flipped bits is detected, wherever they are. */
  lemma OddErrorsDetected(s: seq<bool>, t: seq<bool>)
    requires |s| == |t| && Differences(s, t) % 2 == 1
    requires Intact(s)
    ensures !Intact(t)
  {
    DifferencesParity(s, t);
    RunParity(PACKET_SEED, s);
    RunParity(PACKET_SEED, t);
  }

  // ---------- checking a reply ----------

  /** The byte step of checkMfxCRC on its 16-bit register: mix, then reduce twice. */
  function CheckStep(r: bv16, x: bv8): bv16 {
    Fold(Mix(r, x as bv16))
  }

  function Mix(r: bv16, x: bv16): bv16 {
    r ^ ((r << 1) ^ (r << 2) ^ x)
  }

  function Fold(a: bv16): bv16 {
    var b := if a & 0x0100 != 0 then a ^ 0x0107 else a;
    if b & 0x0200 != 0 then b ^ 0x020E else b
  }

  function Reduced(m: bv8, h1: bool, h2: bool): bv8 {
    m ^ (if h1 then 7 else 0) ^ (if h2 then 0x0E else 0)
  }

  lemma FoldIs(a: bv16, low: bv8)
    requires a & 0xFC00 == 0 && a & 0xFF == low as bv16
    ensures Fold(a) == Reduced(low, a & 0x0100 != 0, a & 0x0200 != 0) as bv16
  {
  }

  function Spread(r: bv8): bv8 { r ^ (r << 1) ^ (r << 2) }

  function Carry1(r: bv8): bool { (r ^ (r << 1)) & 0x80 != 0 }

  function Carry2(r: bv8): bool { r & 0x80 != 0 }

  /** Where the bits of the mixed register come from. */
  lemma MixIs(r: bv8, x: bv8)
    ensures var a := Mix(r as bv16, x as bv16);
            && a & 0xFC00 == 0
            && (a & 0x0100 != 0) == Carry1(r)
            && (a & 0x0200 != 0) == Carry2(r)
  {
  }

  lemma MixLow(r: bv8, x: bv8)
    ensures Mix(r as bv16, x as bv16) & 0x00FF == Xor(Spread(r), x) as bv16
  {
  }

  lemma TwoNibbles(r: bv8)
    ensures Nibble(Nibble(r)) == Reduced(Spread(r), Carry1(r), Carry2(r))
  {
  }

  lemma ReducedXor(m: bv8, x: bv8, h1: bool, h2: bool)
    ensures Reduced(Xor(m, x), h1, h2) == Xor(Reduced(m, h1, h2), x)
  {
    XorSwap(m, x, if h1 then 7 else 0);
    XorSwap(m ^ (if h1 then 7 else 0), x, if h2 then 0x0E else 0);
  }

  lemma XorSwap(x: bv8, y: bv8, z: bv8)
    ensures (x ^ y) ^ z == (x ^ z) ^ y
  {
  }

  /** It is eight bit steps, for every register and byte. */
  lemma CheckStepIsByte(r: bv8, x: bv8)
    ensures CheckStep(r as bv16, x) == CrcByte(r, x) as bv16
  {
    hide Mix, Fold, Nibble, Xor, Spread, Carry1, Carry2, Reduced;
    MixIs(r, x);
    MixLow(r, x);
    FoldIs(Mix(r as bv16, x as bv16), Xor(Spread(r), x));
    TwoNibbles(r);
    ReducedXor(Spread(r), x, Carry1(r), Carry2(r));
  }

  /** A reply is n data bytes and the checksum byte over them. */
  predicate GoodReply(bytes: seq<bv8>)
    requires |bytes| > 0
  {
    CrcRun(REPLY_SEED, BytesBits(bytes[..|bytes| - 1])) == bytes[|bytes| - 1]
  }

  method CheckMfxCrc(buff: array<bv8>, n: nat) returns (ok: bool)
    requires n < buff.Length
    ensures ok == GoodReply(buff[..n + 1])
  {
    hide CrcByte, CheckStep, ToBits;
    var crcreg: bv16 := 0xFF;
    ghost var r := REPLY_SEED;
    var i := 0;
    while i < n
      invariant 0 <= i <= n
      invariant r == CrcRun(REPLY_SEED, BytesBits(buff[..i])) && crcreg == r as bv16
    {
      CheckStepIsByte(r, buff[i]);
      assert buff[..i + 1][..i] == buff[..i];
      RunConcat(REPLY_SEED, BytesBits(buff[..i]), ToBits(buff[i]));
      RunIsByte(r, buff[i]);
      crcreg := CheckStep(crcreg, buff[i]);
      r := CrcByte(r, buff[i]);
      i := i + 1;
    }
    assert buff[..n + 1][..n] == buff[..n];
    ok := crcreg == buff[n] as bv16;
  }

  /** No reply with one byte changed, data or checksum, passes the check. */
  lemma ReplyByteError(bytes: seq<bv8>, i: nat, x: bv8)
    requires i < |bytes| && x != bytes[i]
    requires GoodReply(bytes)
    ensures !GoodReply(bytes[i := x])
  {
    hide CrcRun, CrcByte, ToBits, BytesBits;
    var n := |bytes| - 1;
    var other := bytes[i := x];
    if i < n {
      var p, q := bytes[..i], bytes[i + 1..n];
      assert bytes[..n] == p + ([bytes[i]] + q) && other[..n] == p + ([x] + q);
      var r := CrcRun(REPLY_SEED, BytesBits(p));
      ReplySplit(p, bytes[i], q);
      ReplySplit(p, x, q);
      if GoodReply(other) {
        RunInjective(CrcByte(r, bytes[i]), CrcByte(r, x), BytesBits(q));
        ByteInjective(r, bytes[i], x);
      }
    } else {
      assert other[..n] == bytes[..n];
    }
  }

  lemma ReplySplit(p: seq<bv8>, x: bv8, q: seq<bv8>)
    ensures CrcRun(REPLY_SEED, BytesBits(p + ([x] + q))) ==
            CrcRun(CrcByte(CrcRun(REPLY_SEED, BytesBits(p)), x), BytesBits(q))
  {
    var r := CrcRun(REPLY_SEED, BytesBits(p));
    BytesBitsConcat(p, [x] + q);
    BytesBitsConcat([x], q);
    assert BytesBits([x]) == ToBits(x) by { assert [x][..0] == []; }
    RunConcat(REPLY_SEED, BytesBits(p), ToBits(x) + BytesBits(q));
    RunConcat(r, ToBits(x), BytesBits(q));
    RunIsByte(r, x);
  }
}
