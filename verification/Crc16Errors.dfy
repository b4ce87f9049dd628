/** What the 16-bit CRC detects, bit by bit: every change inside a window of 16
    bits, at any offset, and every odd number of flipped bits. */
module Crc16Errors {
  import opened BitStrings
  import opened Crc16
  import opened Sequences

  // ---------- the register one bit at a time ----------

  function TopBitOf(b: bool): bv16 { if b then 0x8000 else 0 }

  function BitIn(r: bv16, b: bool): bv16 { BitStep(Xor(r, TopBitOf(b))) }

  function BitRun(r: bv16, s: seq<bool>): bv16
    decreases |s|
  {
    if s == [] then r else BitRun(BitIn(r, s[0]), s[1..])
  }

  lemma {:induction false} RunConcat(r: bv16, s: seq<bool>, t: seq<bool>)
    ensures BitRun(r, s + t) == BitRun(BitRun(r, s), t)
    decreases |s|
  {
    hide BitIn;
    if s == [] {
      assert s + t == t;
    } else {
      assert (s + t)[1..] == s[1..] + t;
      RunConcat(BitIn(r, s[0]), s[1..], t);
    }
  }

  // ---------- up to 16 bits at once ----------

  function R1(x: bv16): bv16 { x >> 1 }

  /** The bits at the top of a word, the first one highest. */
  function Top(s: seq<bool>): bv16
  {
    if s == [] then 0 else Xor(TopBitOf(s[0]), R1(Top(s[1..])))
  }

  /** k ones at the low end */
  function LowMask(k: nat): bv16
    requires k <= 16
  {
    if k == 0 then 0x0000 else if k == 1 then 0x0001 else if k == 2 then 0x0003 else if k == 3 then 0x0007
    else if k == 4 then 0x000F else if k == 5 then 0x001F else if k == 6 then 0x003F else if k == 7 then 0x007F
    else if k == 8 then 0x00FF else if k == 9 then 0x01FF else if k == 10 then 0x03FF else if k == 11 then 0x07FF
    else if k == 12 then 0x0FFF else if k == 13 then 0x1FFF else if k == 14 then 0x3FFF else if k == 15 then 0x7FFF
    else 0xFFFF
  }

  lemma NextMask(k: nat)
    requires k < 16
    ensures LowMask(k + 1) == (LowMask(k) << 1) | 1 && LowMask(k) & 0x8000 == 0
  {
  }

  predicate Clear(x: bv16, m: bv16) { x & m == 0 }

  lemma ClearStep(x: bv16, m: bv16, b: bool)
    requires Clear(x, (m << 1) | 1) && m & 0x8000 == 0
    ensures Clear(Xor(TopBitOf(b), R1(x)), m)
  {
  }

  lemma ClearLowest(x: bv16, m: bv16)
    requires Clear(x, (m << 1) | 1)
    ensures x & 1 == 0
  {
  }

  /** Below the bits of s there is nothing. */
  lemma {:induction false} TopRoom(s: seq<bool>)
    requires |s| <= 16
    ensures Clear(Top(s), LowMask(16 - |s|))
    ensures |s| < 16 ==> Top(s) & 1 == 0
  {
    hide LowMask, Xor, R1, TopBitOf, Clear;
    if s == [] {
      NothingClear();
    } else {
      NextMask(16 - |s|);
      TopRoom(s[1..]);
      ClearStep(Top(s[1..]), LowMask(16 - |s|), s[0]);
      if |s| < 16 {
        NextMask(15 - |s|);
        ClearLowest(Top(s), LowMask(15 - |s|));
      }
    }
  }

  lemma NothingClear()
    ensures Clear(0, LowMask(16)) && 0 as bv16 & 1 == 0
  {
  }

  lemma BitStepLinear(x: bv16, y: bv16)
    ensures BitStep(Xor(x, y)) == Xor(BitStep(x), BitStep(y))
  {
    OneStep(x);
    OneStep(y);
    OneStep(Xor(x, y));
    L1Linear(x, y);
    R15Linear(x, y);
    FoldLinear(R15(x), R15(y));
    XorSwap(L1(x), L1(y), Fold(R15(x)), Fold(R15(y)));
    hide BitStep, Xor, L1, R15, Fold;
  }

  lemma UpAndDown(x: bv16)
    requires x & 1 == 0
    ensures L1(R1(x)) == x && R1(x) & 0x8000 == 0
  {
  }

  /** A bit that has not reached the top is only shifted. */
  lemma StepUp(x: bv16)
    requires x & 1 == 0
    ensures BitStep(R1(x)) == x
  {
    UpAndDown(x);
    XorNothing(x);
    hide Xor, L1, R1;
  }

  /** Bits that come in one by one may as well come in all at once. */
  lemma {:induction false} RunIs(r: bv16, s: seq<bool>)
    requires |s| <= 16
    ensures BitRun(r, s) == BitSteps(Xor(r, Top(s)), |s|)
    decreases |s|
  {
    if s == [] {
      XorNothing(r);
    } else {
      var b, t := s[0], s[1..];
      TopRoom(t);
      var x := Xor(r, TopBitOf(b));
      StepUp(Top(t));
      BitStepLinear(x, R1(Top(t)));
      XorAssoc(r, TopBitOf(b), R1(Top(t)));
      RunIs(BitIn(r, b), t);
      hide BitStep, Xor, R1, TopBitOf;
      assert BitStep(Xor(r, Top(s))) == Xor(BitIn(r, b), Top(t));
    }
  }

  // ---------- injectivity ----------

  predicate TopBit(x: bv16) { x & 0x8000 != 0 }

  predicate LowBit(x: bv16) { x & 1 != 0 }

  function Poly(b: bool): bv16 { if b then 0x1021 else 0 }

  lemma BitStepIs(x: bv16)
    ensures BitStep(x) == Xor(L1(x), Poly(TopBit(x)))
  {
    hide Xor, L1;
  }

  lemma LowestIn(x: bv16, b: bool)
    ensures LowBit(Xor(L1(x), Poly(b))) == b
  {
  }

  lemma Shifts(x: bv16, y: bv16)
    requires L1(x) == L1(y) && TopBit(x) == TopBit(y)
    ensures x == y
  {
  }

  /** The lowest bit of the new register is the bit that left the old one. */
  lemma BitStepInjective(x: bv16, y: bv16)
    requires BitStep(x) == BitStep(y)
    ensures x == y
  {
    BitStepIs(x);
    BitStepIs(y);
    LowestIn(x, TopBit(x));
    LowestIn(y, TopBit(y));
    hide BitStep, Xor, L1, TopBit, LowBit, Poly;
    XorCancels(Poly(TopBit(x)), L1(x), L1(y));
    Shifts(x, y);
  }

  lemma {:induction false} BitStepsInjective(x: bv16, y: bv16, n: nat)
    requires BitSteps(x, n) == BitSteps(y, n)
    ensures x == y
    decreases n
  {
    hide BitStep;
    if n > 0 {
      BitStepsInjective(BitStep(x), BitStep(y), n - 1);
      BitStepInjective(x, y);
    }
  }

  lemma XorCancels(r: bv16, x: bv16, y: bv16)
    requires Xor(r, x) == Xor(r, y) || Xor(x, r) == Xor(y, r)
    ensures x == y
  {
  }

  lemma {:induction false} RunInjective(r: bv16, q: bv16, s: seq<bool>)
    requires BitRun(r, s) == BitRun(q, s)
    ensures r == q
    decreases |s|
  {
    hide BitStep, Xor;
    if s != [] {
      RunInjective(BitIn(r, s[0]), BitIn(q, s[0]), s[1..]);
      BitStepInjective(Xor(r, TopBitOf(s[0])), Xor(q, TopBitOf(s[0])));
      XorCancels(TopBitOf(s[0]), r, q);
    }
  }

  lemma TopParts(b: bool, x: bv16)
    requires x & 1 == 0
    ensures var w := Xor(TopBitOf(b), R1(x)); L1(w) == x && (w & 0x8000 != 0) == b
  {
  }

  lemma {:induction false} TopInjective(s: seq<bool>, t: seq<bool>)
    requires |s| == |t| <= 16 && Top(s) == Top(t)
    ensures s == t
  {
    if s != [] {
      TopRoom(s[1..]);
      TopRoom(t[1..]);
      TopParts(s[0], Top(s[1..]));
      TopParts(t[0], Top(t[1..]));
      hide Xor, R1, L1, TopBitOf;
      assert Top(s[1..]) == Top(t[1..]) && s[0] == t[0];
      TopInjective(s[1..], t[1..]);
      assert s == [s[0]] + s[1..] && t == [t[0]] + t[1..];
    }
  }

  /** Different windows of at most 16 bits leave different registers. */
  lemma WindowInjective(r: bv16, s: seq<bool>, t: seq<bool>)
    requires |s| == |t| <= 16 && BitRun(r, s) == BitRun(r, t)
    ensures s == t
  {
    hide BitRun, BitSteps, Top, Xor;
    RunIs(r, s);
    RunIs(r, t);
    BitStepsInjective(Xor(r, Top(s)), Xor(r, Top(t)), |s|);
    XorCancels(r, Top(s), Top(t));
    TopInjective(s, t);
  }

  // ---------- bytes as bits ----------

  lemma FirstOf(x: bv16)
    ensures x == Xor(TopBitOf(TopBit(x)), R1(L1(x)))
  {
    if x & 0x8000 != 0 { TopSet(x); } else { TopClear(x); }
    hide Xor, R1, L1;
  }

  lemma TopSet(x: bv16)
    requires x & 0x8000 != 0
    ensures x == Xor(0x8000, R1(L1(x)))
  {
  }

  lemma TopClear(x: bv16)
    requires x & 0x8000 == 0
    ensures x == Xor(0, R1(L1(x)))
  {
  }

  function Shifted(b: bv8, k: nat): bv16
    requires k <= 8
  {
    if k == 0 then Raised(b) else L1(Shifted(b, k - 1))
  }

  lemma ThreeShifts(x: bv16)
    ensures L1(L1(L1(x))) == x << 3
  {
  }

  lemma Bits0To2(b: bv8)
    ensures (Raised(b) & 0x8000 != 0) == (b & 0x80 != 0)
    ensures (L1(Raised(b)) & 0x8000 != 0) == (b & 0x40 != 0)
    ensures (L1(L1(Raised(b))) & 0x8000 != 0) == (b & 0x20 != 0)
  {
  }

  lemma Bits3To5(b: bv8)
    ensures var x := Raised(b) << 3;
            && (x & 0x8000 != 0) == (b & 0x10 != 0)
            && (L1(x) & 0x8000 != 0) == (b & 0x08 != 0)
            && (L1(L1(x)) & 0x8000 != 0) == (b & 0x04 != 0)
  {
  }

  lemma Bits6And7(b: bv8)
    ensures var x := (Raised(b) << 3) << 3;
            && (x & 0x8000 != 0) == (b & 0x02 != 0)
            && (L1(x) & 0x8000 != 0) == (b & 0x01 != 0)
            && L1(L1(x)) == 0
  {
  }

  lemma ShiftedAre(b: bv8)
    ensures Shifted(b, 0) == Raised(b) && Shifted(b, 1) == L1(Raised(b)) && Shifted(b, 2) == L1(L1(Raised(b)))
    ensures var x := Raised(b) << 3;
            && Shifted(b, 3) == x && Shifted(b, 4) == L1(x) && Shifted(b, 5) == L1(L1(x))
    ensures var x := (Raised(b) << 3) << 3;
            && Shifted(b, 6) == x && Shifted(b, 7) == L1(x) && Shifted(b, 8) == L1(L1(x))
  {
    ThreeShifts(Raised(b));
    ThreeShifts(Raised(b) << 3);
    hide L1, Raised;
    assert Shifted(b, 3) == L1(Shifted(b, 2));
    assert Shifted(b, 6) == L1(Shifted(b, 5));
  }

  /** The bits of a byte leave the register one by one. */
  lemma ShiftedBits(b: bv8)
    ensures Shifted(b, 8) == 0
    ensures forall k: nat :: k < 8 ==> TopBit(Shifted(b, k)) == ToBits(b)[k]
  {
    Bits6And7(b);
    ShiftedAre(b);
    hide Shifted, L1, Raised, TopBit, ToBits;
    forall k: nat | k < 8 ensures TopBit(Shifted(b, k)) == ToBits(b)[k] {
      if k < 3 { ShiftedLow(b, k); } else if k < 6 { ShiftedMiddle(b, k); } else { ShiftedHigh(b, k); }
    }
  }

  lemma ShiftedLow(b: bv8, k: nat)
    requires k < 3
    ensures TopBit(Shifted(b, k)) == ToBits(b)[k]
  {
    ShiftedAre(b);
    Bits0To2(b);
    hide Shifted, L1, Raised;
  }

  lemma ShiftedMiddle(b: bv8, k: nat)
    requires 3 <= k < 6
    ensures TopBit(Shifted(b, k)) == ToBits(b)[k]
  {
    ShiftedAre(b);
    Bits3To5(b);
    hide Shifted, L1, Raised;
  }

  lemma ShiftedHigh(b: bv8, k: nat)
    requires 6 <= k < 8
    ensures TopBit(Shifted(b, k)) == ToBits(b)[k]
  {
    ShiftedAre(b);
    Bits6And7(b);
    hide Shifted, L1, Raised;
  }

  lemma {:induction false} TopFrom(b: bv8, k: nat)
    requires k <= 8
    ensures Top(ToBits(b)[k..]) == Shifted(b, k)
    decreases 8 - k
  {
    hide ToBits, Xor, R1, L1, TopBitOf, TopBit, Shifted;
    ShiftedBits(b);
    if k < 8 {
      TopFrom(b, k + 1);
      FirstOf(Shifted(b, k));
      NextShift(b, k);
      var s := ToBits(b)[k..];
      assert s[0] == ToBits(b)[k] && s[1..] == ToBits(b)[k + 1..];
    }
  }

  lemma NextShift(b: bv8, k: nat)
    requires k < 8
    ensures Shifted(b, k + 1) == L1(Shifted(b, k))
  {
  }

  lemma ByteRunIs(r: bv16, b: bv8)
    ensures BitRun(r, ToBits(b)) == ByteStep(r, b)
  {
    TopFrom(b, 0);
    RunIs(r, ToBits(b));
    FeedIs(r, b);
    hide BitRun, BitSteps, Top, ToBits, Xor, Shifted, Feed;
    assert ToBits(b)[0..] == ToBits(b);
  }

  lemma FeedIs(r: bv16, b: bv8)
    ensures Feed(r, b) == Xor(r, Shifted(b, 0))
  {
  }

  /** The CRC of bytes is that of their bits. */
  lemma {:induction false} CrcIs(r: bv16, data: seq<bv8>)
    ensures Crc(r, data) == BitRun(r, BytesBits(data))
    decreases |data|
  {
    hide ByteStep, BitIn, ToBits;
    if data != [] {
      var n := |data| - 1;
      CrcIs(r, data[..n]);
      RunConcat(r, BytesBits(data[..n]), ToBits(data[n]));
      ByteRunIs(Crc(r, data[..n]), data[n]);
    }
  }

  // ---------- error detection ----------

  /** Two data of the same length that differ, but only in 16 bits from bit i on. */
  predicate InWindow(s: seq<bv8>, t: seq<bv8>, i: nat) {
    var u, v := BytesBits(s), BytesBits(t);
    && |s| == |t| && i + 16 <= |u| && u != v
    && forall j :: 0 <= j < |u| && !(i <= j < i + 16) ==> u[j] == v[j]
  }

  /** Any change inside 16 bits, wherever they begin, changes the CRC. */
  lemma BurstDetected(seed: bv16, s: seq<bv8>, t: seq<bv8>, i: nat)
    requires InWindow(s, t, i)
    ensures Crc(seed, s) != Crc(seed, t)
  {
    hide Crc, BitRun, BytesBits;
    CrcIs(seed, s);
    CrcIs(seed, t);
    BitsChanged(seed, BytesBits(s), BytesBits(t), i);
  }

  lemma BitsChanged(seed: bv16, s: seq<bool>, t: seq<bool>, i: nat)
    requires |s| == |t| && i + 16 <= |s| && s != t
    requires forall j :: 0 <= j < |s| && !(i <= j < i + 16) ==> s[j] == t[j]
    ensures BitRun(seed, s) != BitRun(seed, t)
  {
    hide BitRun;
    var p, q, u, v := s[..i], s[i + 16..], s[i..i + 16], t[i..i + 16];
    assert s == p + (u + q) && t == p + (v + q);
    RunConcat(seed, p, u + q);
    RunConcat(seed, p, v + q);
    var r := BitRun(seed, p);
    RunConcat(r, u, q);
    RunConcat(r, v, q);
    if BitRun(seed, s) == BitRun(seed, t) {
      RunInjective(BitRun(r, u), BitRun(r, v), q);
      WindowInjective(r, u, v);
    }
  }

  /** x + x << k, which undoes itself up to a doubled k */
  function G1(x: bv16): bv16 { Xor(x, L1(x)) }
  function G2(x: bv16): bv16 { Xor(x, L2(x)) }
  function G4(x: bv16): bv16 { Xor(x, L4(x)) }
  function G8(x: bv16): bv16 { Xor(x, L8(x)) }

  /** Every bit with the exclusive or of itself and all lower ones. */
  function Sums(x: bv16): bv16 { G1(G2(G4(G8(x)))) }

  /** Is the number of ones odd? */
  predicate Odd16(x: bv16) { TopBit(Sums(x)) }

  lemma Twice1(x: bv16)
    ensures G1(G1(x)) == G2(x)
  {
  }

  lemma Twice2(x: bv16)
    ensures G2(G2(x)) == G4(x)
  {
  }

  lemma Twice4(x: bv16)
    ensures G4(G4(x)) == G8(x)
  {
  }

  lemma Twice8(x: bv16)
    ensures G8(G8(x)) == x
  {
  }

  lemma SumsUndone(x: bv16)
    ensures G1(Sums(x)) == x
  {
    hide G1, G2, G4, G8;
    Twice1(G2(G4(G8(x))));
    Twice2(G4(G8(x)));
    Twice4(G8(x));
    Twice8(x);
  }

  lemma Commute(x: bv16)
    ensures G1(L1(x)) == L1(G1(x)) && G2(L1(x)) == L1(G2(x))
  {
  }

  lemma CommuteMore(x: bv16)
    ensures G4(L1(x)) == L1(G4(x)) && G8(L1(x)) == L1(G8(x))
  {
  }

  lemma SumsShifted(x: bv16)
    ensures Sums(L1(x)) == L1(Sums(x))
  {
    hide G1, G2, G4, G8, L1;
    CommuteMore(x);
    CommuteMore(G8(x));
    Commute(G4(G8(x)));
    Commute(G2(G4(G8(x))));
  }

  lemma L2Linear(x: bv16, y: bv16)
    ensures L2(Xor(x, y)) == Xor(L2(x), L2(y))
  {
  }

  lemma GLinear(x: bv16, y: bv16)
    ensures G1(Xor(x, y)) == Xor(G1(x), G1(y)) && G2(Xor(x, y)) == Xor(G2(x), G2(y))
    ensures G4(Xor(x, y)) == Xor(G4(x), G4(y)) && G8(Xor(x, y)) == Xor(G8(x), G8(y))
  {
    L1Linear(x, y);
    L2Linear(x, y);
    L8Linear(x, y);
    ShiftsLinear(x, y);
    XorSwap(x, y, L1(x), L1(y));
    XorSwap(x, y, L2(x), L2(y));
    XorSwap(x, y, L4(x), L4(y));
    XorSwap(x, y, L8(x), L8(y));
    hide Xor, L1, L2, L4, L8;
  }

  lemma TopBitXor(x: bv16, y: bv16)
    ensures TopBit(Xor(x, y)) == (TopBit(x) != TopBit(y))
  {
  }

  lemma OddXor(x: bv16, y: bv16)
    ensures Odd16(Xor(x, y)) == (Odd16(x) != Odd16(y))
  {
    hide Xor, G1, G2, G4, G8, TopBit;
    GLinear(x, y);
    GLinear(G8(x), G8(y));
    GLinear(G4(G8(x)), G4(G8(y)));
    GLinear(G2(G4(G8(x))), G2(G4(G8(y))));
    TopBitXor(Sums(x), Sums(y));
  }

  lemma OddShifted(x: bv16)
    ensures Odd16(L1(x)) == (Odd16(x) != TopBit(x))
  {
    SumsUndone(x);
    SumsShifted(x);
    TopBitXor(Sums(x), L1(Sums(x)));
    hide Sums, Xor, L1, TopBit;
  }

  lemma OddConstants(b: bool)
    ensures Odd16(Poly(b)) == b && Odd16(TopBitOf(b)) == b
  {
  }

  /** The polynomial, x^16 included, has an even number of terms. */
  lemma StepParity(r: bv16)
    ensures Odd16(BitStep(r)) == Odd16(r)
  {
    BitStepIs(r);
    OddShifted(r);
    OddConstants(TopBit(r));
    OddXor(L1(r), Poly(TopBit(r)));
    hide Odd16, BitStep, Xor, L1, Poly, TopBit;
  }

  lemma TopBitParity(r: bv16, b: bool)
    ensures Odd16(Xor(r, TopBitOf(b))) == (Odd16(r) != b)
  {
    OddXor(r, TopBitOf(b));
    OddConstants(b);
    hide Odd16, Xor, TopBitOf;
  }

  /** The polynomial has x + 1 as a factor: the register carries the parity. */
  lemma {:induction false} RunParity(r: bv16, s: seq<bool>)
    ensures Odd16(BitRun(r, s)) == (Odd16(r) != OddOnes(s))
    decreases |s|
  {
    hide Odd16, BitStep, Xor;
    if s != [] {
      TopBitParity(r, s[0]);
      StepParity(Xor(r, TopBitOf(s[0])));
      RunParity(BitIn(r, s[0]), s[1..]);
    }
  }

  /** Any odd number of flipped bits, wherever they are, changes the CRC. */
  lemma OddErrorsDetected(seed: bv16, s: seq<bv8>, t: seq<bv8>)
    requires |s| == |t| && Differences(BytesBits(s), BytesBits(t)) % 2 == 1
    ensures Crc(seed, s) != Crc(seed, t)
  {
    hide Crc, BitRun, BytesBits, Odd16;
    CrcIs(seed, s);
    CrcIs(seed, t);
    RunParity(seed, BytesBits(s));
    RunParity(seed, BytesBits(t));
    DifferencesParity(BytesBits(s), BytesBits(t));
  }

  /** The changes that are certain to be found. */
  ghost predicate Detectable(s: seq<bv8>, t: seq<bv8>) {
    |s| == |t| && ((exists i :: InWindow(s, t, i)) || Differences(BytesBits(s), BytesBits(t)) % 2 == 1)
  }

  lemma Detected(seed: bv16, s: seq<bv8>, t: seq<bv8>)
    requires Detectable(s, t)
    ensures Crc(seed, s) != Crc(seed, t)
  {
    hide Crc, BytesBits, InWindow;
    if i :| InWindow(s, t, i) {
      BurstDetected(seed, s, t, i);
    } else {
      OddErrorsDetected(seed, s, t);
    }
  }

  lemma {:induction false} BytesBitsAt(bytes: seq<bv8>, k: nat)
    requires k < 8 * |bytes|
    ensures BytesBits(bytes)[k] == ToBits(bytes[k / 8])[k % 8]
    decreases |bytes|
  {
    hide ToBits;
    var n := |bytes| - 1;
    if k < 8 * n {
      BytesBitsAt(bytes[..n], k);
    } else {
      assert k / 8 == n && k % 8 == k - 8 * n;
    }
  }

  lemma ToBitsInjective(x: bv8, y: bv8)
    requires ToBits(x) == ToBits(y)
    ensures x == y
  {
    FromToBits(x);
    FromToBits(y);
    hide ToBits, FromBits;
  }

  lemma FromToBits(x: bv8)
    ensures FromBits(ToBits(x)) == x
  {
  }

  /** A change of one byte or of two adjacent bytes is one inside a window. */
  lemma AdjacentIsWindow(s: seq<bv8>, t: seq<bv8>, i: nat)
    requires ChangedAt(s, t, i)
    ensures InWindow(s, t, 8 * i)
  {
    hide ToBits, BytesBits;
    var u, v := BytesBits(s), BytesBits(t);
    var c := if s[i] != t[i] then i else i + 1;
    if forall k: nat :: k < 8 ==> ToBits(s[c])[k] == ToBits(t[c])[k] {
      assert ToBits(s[c]) == ToBits(t[c]);
      ToBitsInjective(s[c], t[c]);
    }
    var k: nat :| k < 8 && ToBits(s[c])[k] != ToBits(t[c])[k];
    BytesBitsAt(s, 8 * c + k);
    BytesBitsAt(t, 8 * c + k);
    forall j | 0 <= j < |u| && !(8 * i <= j < 8 * i + 16) ensures u[j] == v[j] {
      BytesBitsAt(s, j);
      BytesBitsAt(t, j);
    }
  }
}
