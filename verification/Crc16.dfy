/** The 16-bit CRC of the Maerklin CAN protocol: the table form that the program
    uses, the bitwise form with polynomial 0x1021, and what the CRC detects. */
module Crc16 {

  // ---------- bit by bit: the reference ----------

  function Xor(x: bv16, y: bv16): bv16 { x ^ y }

  function L1(x: bv16): bv16 { x << 1 }

  function BitStep(r: bv16): bv16 {
    Xor(L1(r), if r & 0x8000 != 0 then 0x1021 else 0)
  }

  function BitSteps(r: bv16, n: nat): bv16
    decreases n
  {
    if n == 0 then r else BitSteps(BitStep(r), n - 1)
  }

  /** One byte into the register, bit by bit. */
  function ByteStep(r: bv16, b: bv8): bv16 {
    BitSteps(Feed(r, b), 8)
  }

  function Feed(r: bv16, b: bv8): bv16 { Xor(r, Raised(b)) }

  function Raised(b: bv8): bv16 { L8(Wide(b)) }

  function Wide(b: bv8): bv16 { b as bv16 }

  function Crc(r: bv16, data: seq<bv8>): bv16 {
    if data == [] then r else ByteStep(Crc(r, data[..|data| - 1]), data[|data| - 1])
  }

  // ---------- the table, as in the source ----------

  function Row0(lo: bv8): bv16 {
    match lo
    case 0 => 0x0000 case 1 => 0x1021 case 2 => 0x2042 case 3 => 0x3063
    case 4 => 0x4084 case 5 => 0x50a5 case 6 => 0x60c6 case 7 => 0x70e7
    case 8 => 0x8108 case 9 => 0x9129 case 10 => 0xa14a case 11 => 0xb16b
    case 12 => 0xc18c case 13 => 0xd1ad case 14 => 0xe1ce case _ => 0xf1ef
  }

  function Row1(lo: bv8): bv16 {
    match lo
    case 0 => 0x1231 case 1 => 0x0210 case 2 => 0x3273 case 3 => 0x2252
    case 4 => 0x52b5 case 5 => 0x4294 case 6 => 0x72f7 case 7 => 0x62d6
    case 8 => 0x9339 case 9 => 0x8318 case 10 => 0xb37b case 11 => 0xa35a
    case 12 => 0xd3bd case 13 => 0xc39c case 14 => 0xf3ff case _ => 0xe3de
  }

  function Row2(lo: bv8): bv16 {
    match lo
    case 0 => 0x2462 case 1 => 0x3443 case 2 => 0x0420 case 3 => 0x1401
    case 4 => 0x64e6 case 5 => 0x74c7 case 6 => 0x44a4 case 7 => 0x5485
    case 8 => 0xa56a case 9 => 0xb54b case 10 => 0x8528 case 11 => 0x9509
    case 12 => 0xe5ee case 13 => 0xf5cf case 14 => 0xc5ac case _ => 0xd58d
  }

  function Row3(lo: bv8): bv16 {
    match lo
    case 0 => 0x3653 case 1 => 0x2672 case 2 => 0x1611 case 3 => 0x0630
    case 4 => 0x76d7 case 5 => 0x66f6 case 6 => 0x5695 case 7 => 0x46b4
    case 8 => 0xb75b case 9 => 0xa77a case 10 => 0x9719 case 11 => 0x8738
    case 12 => 0xf7df case 13 => 0xe7fe case 14 => 0xd79d case _ => 0xc7bc
  }

  function Row4(lo: bv8): bv16 {
    match lo
    case 0 => 0x48c4 case 1 => 0x58e5 case 2 => 0x6886 case 3 => 0x78a7
    case 4 => 0x0840 case 5 => 0x1861 case 6 => 0x2802 case 7 => 0x3823
    case 8 => 0xc9cc case 9 => 0xd9ed case 10 => 0xe98e case 11 => 0xf9af
    case 12 => 0x8948 case 13 => 0x9969 case 14 => 0xa90a case _ => 0xb92b
  }

  function Row5(lo: bv8): bv16 {
    match lo
    case 0 => 0x5af5 case 1 => 0x4ad4 case 2 => 0x7ab7 case 3 => 0x6a96
    case 4 => 0x1a71 case 5 => 0x0a50 case 6 => 0x3a33 case 7 => 0x2a12
    case 8 => 0xdbfd case 9 => 0xcbdc case 10 => 0xfbbf case 11 => 0xeb9e
    case 12 => 0x9b79 case 13 => 0x8b58 case 14 => 0xbb3b case _ => 0xab1a
  }

  function Row6(lo: bv8): bv16 {
    match lo
    case 0 => 0x6ca6 case 1 => 0x7c87 case 2 => 0x4ce4 case 3 => 0x5cc5
    case 4 => 0x2c22 case 5 => 0x3c03 case 6 => 0x0c60 case 7 => 0x1c41
    case 8 => 0xedae case 9 => 0xfd8f case 10 => 0xcdec case 11 => 0xddcd
    case 12 => 0xad2a case 13 => 0xbd0b case 14 => 0x8d68 case _ => 0x9d49
  }

  function Row7(lo: bv8): bv16 {
    match lo
    case 0 => 0x7e97 case 1 => 0x6eb6 case 2 => 0x5ed5 case 3 => 0x4ef4
    case 4 => 0x3e13 case 5 => 0x2e32 case 6 => 0x1e51 case 7 => 0x0e70
    case 8 => 0xff9f case 9 => 0xefbe case 10 => 0xdfdd case 11 => 0xcffc
    case 12 => 0xbf1b case 13 => 0xaf3a case 14 => 0x9f59 case _ => 0x8f78
  }

  function Row8(lo: bv8): bv16 {
    match lo
    case 0 => 0x9188 case 1 => 0x81a9 case 2 => 0xb1ca case 3 => 0xa1eb
    case 4 => 0xd10c case 5 => 0xc12d case 6 => 0xf14e case 7 => 0xe16f
    case 8 => 0x1080 case 9 => 0x00a1 case 10 => 0x30c2 case 11 => 0x20e3
    case 12 => 0x5004 case 13 => 0x4025 case 14 => 0x7046 case _ => 0x6067
  }

  function Row9(lo: bv8): bv16 {
    match lo
    case 0 => 0x83b9 case 1 => 0x9398 case 2 => 0xa3fb case 3 => 0xb3da
    case 4 => 0xc33d case 5 => 0xd31c case 6 => 0xe37f case 7 => 0xf35e
    case 8 => 0x02b1 case 9 => 0x1290 case 10 => 0x22f3 case 11 => 0x32d2
    case 12 => 0x4235 case 13 => 0x5214 case 14 => 0x6277 case _ => 0x7256
  }

  function RowA(lo: bv8): bv16 {
    match lo
    case 0 => 0xb5ea case 1 => 0xa5cb case 2 => 0x95a8 case 3 => 0x8589
    case 4 => 0xf56e case 5 => 0xe54f case 6 => 0xd52c case 7 => 0xc50d
    case 8 => 0x34e2 case 9 => 0x24c3 case 10 => 0x14a0 case 11 => 0x0481
    case 12 => 0x7466 case 13 => 0x6447 case 14 => 0x5424 case _ => 0x4405
  }

  function RowB(lo: bv8): bv16 {
    match lo
    case 0 => 0xa7db case 1 => 0xb7fa case 2 => 0x8799 case 3 => 0x97b8
    case 4 => 0xe75f case 5 => 0xf77e case 6 => 0xc71d case 7 => 0xd73c
    case 8 => 0x26d3 case 9 => 0x36f2 case 10 => 0x0691 case 11 => 0x16b0
    case 12 => 0x6657 case 13 => 0x7676 case 14 => 0x4615 case _ => 0x5634
  }

  function RowC(lo: bv8): bv16 {
    match lo
    case 0 => 0xd94c case 1 => 0xc96d case 2 => 0xf90e case 3 => 0xe92f
    case 4 => 0x99c8 case 5 => 0x89e9 case 6 => 0xb98a case 7 => 0xa9ab
    case 8 => 0x5844 case 9 => 0x4865 case 10 => 0x7806 case 11 => 0x6827
    case 12 => 0x18c0 case 13 => 0x08e1 case 14 => 0x3882 case _ => 0x28a3
  }

  function RowD(lo: bv8): bv16 {
    match lo
    case 0 => 0xcb7d case 1 => 0xdb5c case 2 => 0xeb3f case 3 => 0xfb1e
    case 4 => 0x8bf9 case 5 => 0x9bd8 case 6 => 0xabbb case 7 => 0xbb9a
    case 8 => 0x4a75 case 9 => 0x5a54 case 10 => 0x6a37 case 11 => 0x7a16
    case 12 => 0x0af1 case 13 => 0x1ad0 case 14 => 0x2ab3 case _ => 0x3a92
  }

  function RowE(lo: bv8): bv16 {
    match lo
    case 0 => 0xfd2e case 1 => 0xed0f case 2 => 0xdd6c case 3 => 0xcd4d
    case 4 => 0xbdaa case 5 => 0xad8b case 6 => 0x9de8 case 7 => 0x8dc9
    case 8 => 0x7c26 case 9 => 0x6c07 case 10 => 0x5c64 case 11 => 0x4c45
    case 12 => 0x3ca2 case 13 => 0x2c83 case 14 => 0x1ce0 case _ => 0x0cc1
  }

  function RowF(lo: bv8): bv16 {
    match lo
    case 0 => 0xef1f case 1 => 0xff3e case 2 => 0xcf5d case 3 => 0xdf7c
    case 4 => 0xaf9b case 5 => 0xbfba case 6 => 0x8fd9 case 7 => 0x9ff8
    case 8 => 0x6e17 case 9 => 0x7e36 case 10 => 0x4e55 case 11 => 0x5e74
    case 12 => 0x2e93 case 13 => 0x3eb2 case 14 => 0x0ed1 case _ => 0x1ef0
  }

  function Table(i: bv8): bv16 {
    var lo := i & 0x0F;
    match i >> 4
    case 0 => Row0(lo)
    case 1 => Row1(lo)
    case 2 => Row2(lo)
    case 3 => Row3(lo)
    case 4 => Row4(lo)
    case 5 => Row5(lo)
    case 6 => Row6(lo)
    case 7 => Row7(lo)
    case 8 => Row8(lo)
    case 9 => Row9(lo)
    case 10 => RowA(lo)
    case 11 => RowB(lo)
    case 12 => RowC(lo)
    case 13 => RowD(lo)
    case 14 => RowE(lo)
    case _ => RowF(lo)
  }

  /** What an entry should be: the index, multiplied by x^16. */
  function Entry(i: bv8): bv16 {
    var t := (i ^ (i >> 4)) as bv16;
    (t << 12) ^ (t << 5) ^ t
  }

  lemma Row0Is(lo: bv8)
    requires lo & 0xF0 == 0
    ensures Row0(lo) == Entry(0x00 | lo)
  {
  }

  lemma Row1Is(lo: bv8)
    requires lo & 0xF0 == 0
    ensures Row1(lo) == Entry(0x10 | lo)
  {
  }

  lemma Row2Is(lo: bv8)
    requires lo & 0xF0 == 0
    ensures Row2(lo) == Entry(0x20 | lo)
  {
  }

  lemma Row3Is(lo: bv8)
    requires lo & 0xF0 == 0
    ensures Row3(lo) == Entry(0x30 | lo)
  {
  }

  lemma Row4Is(lo: bv8)
    requires lo & 0xF0 == 0
    ensures Row4(lo) == Entry(0x40 | lo)
  {
  }

  lemma Row5Is(lo: bv8)
    requires lo & 0xF0 == 0
    ensures Row5(lo) == Entry(0x50 | lo)
  {
  }

  lemma Row6Is(lo: bv8)
    requires lo & 0xF0 == 0
    ensures Row6(lo) == Entry(0x60 | lo)
  {
  }

  lemma Row7Is(lo: bv8)
    requires lo & 0xF0 == 0
    ensures Row7(lo) == Entry(0x70 | lo)
  {
  }

  lemma Row8Is(lo: bv8)
    requires lo & 0xF0 == 0
    ensures Row8(lo) == Entry(0x80 | lo)
  {
  }

  lemma Row9Is(lo: bv8)
    requires lo & 0xF0 == 0
    ensures Row9(lo) == Entry(0x90 | lo)
  {
  }

  lemma RowAIs(lo: bv8)
    requires lo & 0xF0 == 0
    ensures RowA(lo) == Entry(0xA0 | lo)
  {
  }

  lemma RowBIs(lo: bv8)
    requires lo & 0xF0 == 0
    ensures RowB(lo) == Entry(0xB0 | lo)
  {
  }

  lemma RowCIs(lo: bv8)
    requires lo & 0xF0 == 0
    ensures RowC(lo) == Entry(0xC0 | lo)
  {
  }

  lemma RowDIs(lo: bv8)
    requires lo & 0xF0 == 0
    ensures RowD(lo) == Entry(0xD0 | lo)
  {
  }

  lemma RowEIs(lo: bv8)
    requires lo & 0xF0 == 0
    ensures RowE(lo) == Entry(0xE0 | lo)
  {
  }

  lemma RowFIs(lo: bv8)
    requires lo & 0xF0 == 0
    ensures RowF(lo) == Entry(0xF0 | lo)
  {
  }

  /** Every one of the 256 entries is right. */
  lemma TableIs(i: bv8)
    ensures Table(i) == Entry(i)
  {
    var lo := i & 0x0F;
    Halves(i);
    Row0Is(lo);
    Row1Is(lo);
    Row2Is(lo);
    Row3Is(lo);
    Row4Is(lo);
    Row5Is(lo);
    Row6Is(lo);
    Row7Is(lo);
    Row8Is(lo);
    Row9Is(lo);
    RowAIs(lo);
    RowBIs(lo);
    RowCIs(lo);
    RowDIs(lo);
    RowEIs(lo);
    RowFIs(lo);
    hide Entry, Row0, Row1, Row2, Row3, Row4, Row5, Row6, Row7, Row8, Row9, RowA, RowB, RowC, RowD, RowE, RowF;
  }

  lemma Halves(i: bv8)
    ensures (i & 0x0F) & 0xF0 == 0
    ensures i >> 4 == 0x0 ==> i == 0x00 | (i & 0x0F)
    ensures i >> 4 == 0x1 ==> i == 0x10 | (i & 0x0F)
    ensures i >> 4 == 0x2 ==> i == 0x20 | (i & 0x0F)
    ensures i >> 4 == 0x3 ==> i == 0x30 | (i & 0x0F)
    ensures i >> 4 == 0x4 ==> i == 0x40 | (i & 0x0F)
    ensures i >> 4 == 0x5 ==> i == 0x50 | (i & 0x0F)
    ensures i >> 4 == 0x6 ==> i == 0x60 | (i & 0x0F)
    ensures i >> 4 == 0x7 ==> i == 0x70 | (i & 0x0F)
    ensures i >> 4 == 0x8 ==> i == 0x80 | (i & 0x0F)
    ensures i >> 4 == 0x9 ==> i == 0x90 | (i & 0x0F)
    ensures i >> 4 == 0xA ==> i == 0xA0 | (i & 0x0F)
    ensures i >> 4 == 0xB ==> i == 0xB0 | (i & 0x0F)
    ensures i >> 4 == 0xC ==> i == 0xC0 | (i & 0x0F)
    ensures i >> 4 == 0xD ==> i == 0xD0 | (i & 0x0F)
    ensures i >> 4 == 0xE ==> i == 0xE0 | (i & 0x0F)
    ensures !(i >> 4 < 0x0F) ==> i == 0xF0 | (i & 0x0F)
  {
  }

  // ---------- four and eight bits at once ----------

  function L2(x: bv16): bv16 { x << 2 }
  function L4(x: bv16): bv16 { x << 4 }
  function L8(x: bv16): bv16 { x << 8 }
  function R12(x: bv16): bv16 { x >> 12 }
  function R14(x: bv16): bv16 { x >> 14 }
  function R15(x: bv16): bv16 { x >> 15 }

  function L5(x: bv16): bv16 { x << 5 }
  function L12(x: bv16): bv16 { x << 12 }

  /** What h * x^16 is modulo the polynomial x^16 + x^12 + x^5 + 1. */
  function Fold(h: bv16): bv16 { Xor(Xor(h, L5(h)), L12(h)) }

  function Two(r: bv16): bv16 { Xor(L2(r), Fold(R14(r))) }

  function Four(r: bv16): bv16 { Xor(L4(r), Fold(R12(r))) }

  lemma XorAssoc(x: bv16, y: bv16, z: bv16)
    ensures Xor(Xor(x, y), z) == Xor(x, Xor(y, z))
  {
  }

  lemma XorComm(x: bv16, y: bv16)
    ensures Xor(x, y) == Xor(y, x)
  {
  }

  lemma XorNothing(x: bv16)
    ensures Xor(x, 0) == x
  {
  }

  lemma XorSwap(a: bv16, b: bv16, c: bv16, d: bv16)
    ensures Xor(Xor(a, b), Xor(c, d)) == Xor(Xor(a, c), Xor(b, d))
  {
    XorAssoc(a, b, Xor(c, d));
    XorAssoc(b, c, d);
    XorComm(b, c);
    XorAssoc(c, b, d);
    XorAssoc(a, c, Xor(b, d));
    hide Xor;
  }

  lemma TopBit(r: bv16)
    ensures R15(r) == if r & 0x8000 != 0 then 1 else 0
  {
  }

  lemma FoldBit()
    ensures Fold(1) == 0x1021 && Fold(0) == 0 && R15(0x1021) == 0 && R15(0) == 0
  {
  }

  lemma OneStep(r: bv16)
    ensures BitStep(r) == Xor(L1(r), Fold(R15(r))) && R15(Fold(R15(r))) == 0
  {
    TopBit(r);
    FoldBit();
    hide Xor, L1, R15, Fold;
  }

  lemma L1Linear(x: bv16, y: bv16)
    ensures L1(Xor(x, y)) == Xor(L1(x), L1(y))
  {
  }

  lemma R15Linear(x: bv16, y: bv16)
    ensures R15(Xor(x, y)) == Xor(R15(x), R15(y))
  {
  }

  lemma ShiftTwice(r: bv16)
    ensures L1(L1(r)) == L2(r) && R15(L1(r)) == R14(r) & 1
  {
  }

  lemma FoldTwo(r: bv16)
    ensures Xor(L1(Fold(R15(r))), Fold(R14(r) & 1)) == Fold(R14(r))
  {
  }

  lemma TwoSteps(r: bv16)
    ensures BitStep(BitStep(r)) == Two(r)
  {
    var f := Fold(R15(r));
    OneStep(r);
    OneStep(BitStep(r));
    L1Linear(L1(r), f);
    R15Linear(L1(r), f);
    ShiftTwice(r);
    XorNothing(R15(L1(r)));
    FoldTwo(r);
    XorAssoc(L2(r), L1(f), Fold(R14(r) & 1));
    hide BitStep, Xor, L1, L2, R14, R15, Fold;
  }

  lemma TwiceTwo(r: bv16)
    ensures Two(Two(r)) == Four(r)
  {
  }

  lemma EightSteps(r: bv16)
    ensures BitSteps(r, 8) == Four(Four(r))
  {
    hide BitStep, Two, Four;
    TwoSteps(r);
    TwoSteps(Two(r));
    TwiceTwo(r);
    TwoSteps(Four(r));
    TwoSteps(Two(Four(r)));
    TwiceTwo(Four(r));
    assert BitSteps(r, 8) == BitSteps(Two(r), 6);
    assert BitSteps(Two(r), 6) == BitSteps(Four(r), 4);
    assert BitSteps(Four(r), 4) == BitSteps(Two(Four(r)), 2);
    assert BitSteps(Two(Four(r)), 2) == Two(Two(Four(r)));
  }

  lemma ShiftsLinear(x: bv16, y: bv16)
    ensures L4(Xor(x, y)) == Xor(L4(x), L4(y)) && R12(Xor(x, y)) == Xor(R12(x), R12(y))
  {
  }

  lemma FoldShiftsLinear(x: bv16, y: bv16)
    ensures L5(Xor(x, y)) == Xor(L5(x), L5(y)) && L12(Xor(x, y)) == Xor(L12(x), L12(y))
  {
  }

  lemma FoldLinear(x: bv16, y: bv16)
    ensures Fold(Xor(x, y)) == Xor(Fold(x), Fold(y))
  {
    FoldShiftsLinear(x, y);
    XorSwap(x, y, L5(x), L5(y));
    XorSwap(Xor(x, L5(x)), Xor(y, L5(y)), L12(x), L12(y));
    hide Xor, L5, L12;
  }

  lemma FourLinear(x: bv16, y: bv16)
    ensures Four(Xor(x, y)) == Xor(Four(x), Four(y))
  {
    ShiftsLinear(x, y);
    FoldLinear(R12(x), R12(y));
    XorSwap(L4(x), L4(y), Fold(R12(x)), Fold(R12(y)));
    hide Xor, L4, R12, Fold;
  }

  /** Eight bits at once: linear and injective. */
  function Eight(r: bv16): bv16 { Four(Four(r)) }

  lemma EightLinear(x: bv16, y: bv16)
    ensures Eight(Xor(x, y)) == Xor(Eight(x), Eight(y))
  {
    FourLinear(x, y);
    FourLinear(Four(x), Four(y));
    hide Four, Xor;
  }

  lemma FourInjective(x: bv16, y: bv16)
    requires Four(x) == Four(y)
    ensures x == y
  {
    FourUndone(x);
    FourUndone(y);
  }

  /** Four can be undone: its low nibble is the high nibble that left the register. */
  lemma FourUndone(x: bv16)
    ensures var g := Four(x) & 0xF;
            x == ((Four(x) ^ (g ^ (g << 5) ^ (g << 12))) >> 4) ^ (g << 12)
  {
    FourUndoneRaw(x);
  }

  lemma FourUndoneRaw(x: bv16)
    ensures var h := x >> 12;
            var f := (x << 4) ^ (h ^ (h << 5) ^ (h << 12));
            var g := f & 0xF;
            x == ((f ^ (g ^ (g << 5) ^ (g << 12))) >> 4) ^ (g << 12)
  {
  }

  lemma EightInjective(x: bv16, y: bv16)
    requires Eight(x) == Eight(y)
    ensures x == y
  {
    hide Four;
    FourInjective(Four(x), Four(y));
    FourInjective(x, y);
  }

  lemma ByteStepIs(r: bv16, b: bv8)
    ensures ByteStep(r, b) == Eight(Feed(r, b))
  {
    EightSteps(Feed(r, b));
  }

  // ---------- the table form ----------

  /** One byte with the table, as in CRCCCITT. */
  function TableStep(r: bv16, b: bv8): bv16 {
    Xor(Table(Index(r, b)), L8(r))
  }

  function Low8(x: bv16): bv16 { x & 0xFF }

  function R8(x: bv16): bv16 { x >> 8 }

  function Narrow(x: bv16): bv8
    requires x <= 0xFF
  {
    x as bv8
  }

  lemma IsLow(x: bv16)
    ensures Low8(x) <= 0xFF
  {
  }

  /** (b ^ (crc >> 8)) & 0xff */
  function Index(r: bv16, b: bv8): bv8 {
    var x := Low8(Xor(Wide(b), R8(r)));
    IsLow(Xor(Wide(b), R8(r)));
    Narrow(x)
  }

  lemma Narrowed(x: bv16)
    requires x <= 0xFF
    ensures Wide(Narrow(x)) == x
  {
  }

  lemma TwoBytes(x: bv16)
    ensures x == Xor(L8(R8(x)), Low8(x)) && L8(Low8(x)) == L8(x)
  {
  }

  lemma L8Linear(x: bv16, y: bv16)
    ensures L8(Xor(x, y)) == Xor(L8(x), L8(y))
  {
  }

  lemma IndexIs(r: bv16, b: bv8)
    ensures Feed(r, b) == Xor(L8(Wide(Index(r, b))), Low8(r))
  {
    var q := Wide(b);
    var x := Xor(q, R8(r));
    IsLow(x);
    Narrowed(Low8(x));
    TwoBytes(r);
    TwoBytes(x);
    L8Linear(q, R8(r));
    hide Xor, L8, R8, Low8, Wide, Narrow;
    XorComm(Xor(L8(R8(r)), Low8(r)), L8(q));
    XorAssoc(L8(q), L8(R8(r)), Low8(r));
  }

  /** The low byte is only shifted up. */
  lemma EightLow(r: bv16)
    ensures Eight(Low8(r)) == L8(r)
  {
    FourSmall(r & 0xFF);
    FourSmall((r & 0xFF) << 4);
  }

  lemma FourSmall(x: bv16)
    requires x & 0xF000 == 0
    ensures Four(x) == x << 4
  {
  }

  lemma EightHigh(i: bv8)
    ensures Eight(L8(Wide(i))) == Entry(i)
  {
  }

  /** The table step is eight bit steps. */
  lemma TableStepIs(r: bv16, b: bv8)
    ensures TableStep(r, b) == ByteStep(r, b)
  {
    var i := Index(r, b);
    ByteStepIs(r, b);
    IndexIs(r, b);
    EightLinear(L8(Wide(i)), Low8(r));
    EightLow(r);
    EightHigh(i);
    TableIs(i);
    hide Table, Entry, Eight, Xor, L8, Index, Feed, ByteStep, Low8, Wide;
  }

  /** CRCCCITT: the table form computes the bitwise CRC of every byte sequence. */
  method CrcCcitt(data: array<bv8>, length: nat, seed: bv16) returns (crc: bv16)
    requires length <= data.Length
    ensures crc == Crc(seed, data[..length])
  {
    hide TableStep, ByteStep;
    crc := seed;
    var count := 0;
    while count < length
      invariant 0 <= count <= length && crc == Crc(seed, data[..count])
    {
      TableStepIs(crc, data[count]);
      assert data[..count + 1][..count] == data[..count];
      crc := TableStep(crc, data[count]);
      count := count + 1;
    }
  }

  // ---------- error detection ----------

  lemma FeedInjective(r: bv16, q: bv16, b: bv8, c: bv8)
    requires Feed(r, b) == Feed(q, c)
    ensures b == c ==> r == q
    ensures r == q ==> b == c
  {
  }

  /** A step is injective in the register and in the byte. */
  lemma StepInjective(r: bv16, q: bv16, b: bv8, c: bv8)
    requires ByteStep(r, b) == ByteStep(q, c)
    ensures b == c ==> r == q
    ensures r == q ==> b == c
  {
    ByteStepIs(r, b);
    ByteStepIs(q, c);
    hide Eight, Feed;
    EightInjective(Feed(r, b), Feed(q, c));
    FeedInjective(r, q, b, c);
  }

  lemma {:induction false} CrcConcat(r: bv16, a: seq<bv8>, b: seq<bv8>)
    ensures Crc(r, a + b) == Crc(Crc(r, a), b)
    decreases |b|
  {
    hide ByteStep;
    if b == [] {
      assert a + b == a;
    } else {
      assert (a + b)[..|a + b| - 1] == a + b[..|b| - 1];
      CrcConcat(r, a, b[..|b| - 1]);
    }
  }

  lemma {:induction false} CrcInjective(r: bv16, q: bv16, data: seq<bv8>)
    requires Crc(r, data) == Crc(q, data)
    ensures r == q
    decreases |data|
  {
    hide ByteStep;
    if data != [] {
      var n := |data| - 1;
      StepInjective(Crc(r, data[..n]), Crc(q, data[..n]), data[n], data[n]);
      CrcInjective(r, q, data[..n]);
    }
  }

  lemma FeedXor(r: bv16, b: bv8, c: bv8)
    ensures Xor(Feed(r, b), Feed(r, c)) == L8(Wide(b ^ c))
  {
  }

  lemma SameHighPart(a: bv16, b: bv16, x: bv8, y: bv8)
    requires Feed(a, x) == Feed(b, y)
    ensures Xor(a, b) & 0xFF == 0
  {
  }

  /** Entries have different low bytes, apart from entry 0 none is 0. */
  lemma EntryLow(i: bv8)
    requires Entry(i) & 0xFF == 0
    ensures i == 0
  {
  }

  lemma XorZero(b: bv8, c: bv8)
    requires b ^ c == 0
    ensures b == c
  {
  }

  /** Two steps tell any two pairs of bytes apart. */
  lemma PairInjective(r: bv16, b1: bv8, b2: bv8, c1: bv8, c2: bv8)
    requires ByteStep(ByteStep(r, b1), b2) == ByteStep(ByteStep(r, c1), c2)
    ensures b1 == c1 && b2 == c2
  {
    var a, b := ByteStep(r, b1), ByteStep(r, c1);
    ByteStepIs(r, b1);
    ByteStepIs(r, c1);
    ByteStepIs(a, b2);
    ByteStepIs(b, c2);
    hide Eight, Feed, Xor, L8, Entry, ByteStep;
    EightInjective(Feed(a, b2), Feed(b, c2));
    SameHighPart(a, b, b2, c2);
    EightLinear(Feed(r, b1), Feed(r, c1));
    FeedXor(r, b1, c1);
    EightHigh(b1 ^ c1);
    EntryLow(b1 ^ c1);
    XorZero(b1, c1);
    StepInjective(a, b, b2, c2);
  }

  /** t is s with one byte, or two adjacent bytes, changed: s[i] or s[i + 1] or both. */
  predicate ChangedAt(s: seq<bv8>, t: seq<bv8>, i: nat) {
    && |s| == |t| && i + 2 <= |s|
    && (s[i] != t[i] || s[i + 1] != t[i + 1])
    && (forall j :: 0 <= j < |s| && j != i && j != i + 1 ==> s[j] == t[j])
  }

  /** Any change of one byte or of two adjacent bytes changes the CRC. */
  lemma AdjacentChangeDetected(seed: bv16, s: seq<bv8>, t: seq<bv8>, i: nat)
    requires ChangedAt(s, t, i)
    ensures Crc(seed, s) != Crc(seed, t)
  {
    var p, q := s[..i], s[i + 2..];
    var r := Crc(seed, p);
    SplitPair(s, i);
    SplitPair(t, i);
    assert t[..i] == p && t[i + 2..] == q;
    PairCrc(seed, p, s[i], s[i + 1], q);
    PairCrc(seed, p, t[i], t[i + 1], q);
    hide Crc, ByteStep;
    if Crc(seed, s) == Crc(seed, t) {
      CrcInjective(ByteStep(ByteStep(r, s[i]), s[i + 1]), ByteStep(ByteStep(r, t[i]), t[i + 1]), q);
      PairInjective(r, s[i], s[i + 1], t[i], t[i + 1]);
    }
  }

  /** A change of one byte, at either end too, changes the CRC. */
  lemma ByteChangeDetected(seed: bv16, s: seq<bv8>, i: nat, x: bv8)
    requires i < |s| && x != s[i]
    ensures Crc(seed, s[i := x]) != Crc(seed, s)
  {
    var p, q := s[..i], s[i + 1..];
    var r := Crc(seed, p);
    assert s == p + ([s[i]] + q) && s[i := x] == p + ([x] + q);
    ByteCrc(seed, p, s[i], q);
    ByteCrc(seed, p, x, q);
    hide Crc, ByteStep;
    if Crc(seed, s) == Crc(seed, s[i := x]) {
      CrcInjective(ByteStep(r, s[i]), ByteStep(r, x), q);
      StepInjective(r, r, s[i], x);
    }
  }

  lemma ByteCrc(seed: bv16, p: seq<bv8>, x: bv8, q: seq<bv8>)
    ensures Crc(seed, p + ([x] + q)) == Crc(ByteStep(Crc(seed, p), x), q)
  {
    hide ByteStep;
    CrcConcat(seed, p, [x] + q);
    CrcConcat(Crc(seed, p), [x], q);
    assert [x][..0] == [];
  }

  lemma SplitPair(s: seq<bv8>, i: nat)
    requires i + 2 <= |s|
    ensures s == s[..i] + ([s[i], s[i + 1]] + s[i + 2..])
  {
  }

  lemma PairCrc(seed: bv16, p: seq<bv8>, x: bv8, y: bv8, q: seq<bv8>)
    ensures Crc(seed, p + ([x, y] + q)) == Crc(ByteStep(ByteStep(Crc(seed, p), x), y), q)
  {
    hide ByteStep;
    CrcConcat(seed, p, [x, y] + q);
    CrcConcat(Crc(seed, p), [x, y], q);
    PairIs(Crc(seed, p), x, y);
  }

  lemma PairIs(r: bv16, x: bv8, y: bv8)
    ensures Crc(r, [x, y]) == ByteStep(ByteStep(r, x), y)
  {
    hide ByteStep;
    assert [x, y][..1] == [x] && [x][..0] == [];
    assert Crc(r, [x]) == ByteStep(r, x);
  }
}
