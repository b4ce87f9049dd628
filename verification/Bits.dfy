/** Machine words as natural numbers: powers of two, single bits, and the
    MSB-first bit strings in which every packet of the command station is built. */
module Bits {

  function Pow2(n: nat): (r: nat)
    ensures r > 0
  {
    if n == 0 then 1 else 2 * Pow2(n - 1)
  }

  /** The C expression x >> k. */
  function Shr(x: nat, k: nat): nat {
    if k == 0 then x else Shr(x, k - 1) / 2
  }

  /** The C expression x << k, without its truncation. */
  function Shl(x: nat, k: nat): nat {
    if k == 0 then x else 2 * Shl(x, k - 1)
  }

  /** Bit k of x, as in the C test (x >> k) & 1. */
  predicate Bit(x: nat, k: nat) {
    Shr(x, k) % 2 == 1
  }

  /** The C expression x | (1 << k). */
  function SetBit(x: nat, k: nat): nat {
    if Bit(x, k) then x else x + Pow2(k)
  }

  /** The lowest n bits of v, most significant first. */
  function BitsOf(v: nat, n: nat): (s: seq<bool>)
    ensures |s| == n
  {
    if n == 0 then [] else BitsOf(v / 2, n - 1) + [v % 2 == 1]
  }

  /** The number written by an MSB-first bit string. */
  function ValueOf(s: seq<bool>): nat {
    if s == [] then 0 else 2 * ValueOf(s[..|s| - 1]) + (if s[|s| - 1] then 1 else 0)
  }

  /** The lowest n bits of v as a number. */
  function Low(v: nat, n: nat): nat {
    if n == 0 then 0 else 2 * Low(v / 2, n - 1) + v % 2
  }

  lemma {:induction false} LowIs(v: nat, n: nat)
    ensures Low(v, n) < Pow2(n)
    ensures v < Pow2(n) ==> Low(v, n) == v
  {
    if n > 0 { LowIs(v / 2, n - 1); }
  }

  /** Reading n bits back yields the lowest n bits, whatever lay above them. */
  lemma {:induction false} ReadBack(v: nat, n: nat)
    ensures ValueOf(BitsOf(v, n)) == Low(v, n)
  {
    if n > 0 {
      var s := BitsOf(v, n);
      assert s[..|s| - 1] == BitsOf(v / 2, n - 1);
      ReadBack(v / 2, n - 1);
    }
  }

  /** Writing the value of a bit string gives the bit string back. */
  lemma {:induction false} WriteBack(s: seq<bool>)
    ensures BitsOf(ValueOf(s), |s|) == s
    ensures ValueOf(s) < Pow2(|s|)
  {
    if s != [] {
      WriteBack(s[..|s| - 1]);
      assert s == s[..|s| - 1] + [s[|s| - 1]];
    }
  }

  /** Shifting left takes the new lowest bit in. */
  lemma {:induction false} ShlStep(q: nat, k: nat)
    ensures Shl(q, k + 1) == Shl(2 * q, k)
    ensures Shl(2 * q + 1, k) == Shl(2 * q, k) + Pow2(k)
  {
    if k > 0 {
      ShlStep(q, k - 1);
    }
  }

  lemma {:induction false} ShrShl(q: nat, k: nat)
    ensures Shr(Shl(q, k), k) == q
    decreases k
  {
    if k > 0 {
      ShlStep(q, k - 1);
      ShrShl(2 * q, k - 1);
    }
  }

  lemma {:induction false} ShiftZero(k: nat)
    ensures Shr(0, k) == 0 && Shl(0, k) == 0
  {
    if k > 0 { ShiftZero(k - 1); }
  }

  lemma {:induction false} ShrMono(x: nat, y: nat, k: nat)
    requires x <= y
    ensures Shr(x, k) <= Shr(y, k)
  {
    if k > 0 { ShrMono(x, y, k - 1); }
  }

  lemma {:induction false} ShrBound(x: nat, k: nat, j: nat)
    requires x < Pow2(k + j)
    ensures Shr(x, k) < Pow2(j)
  {
    if k > 0 { ShrBound(x, k - 1, j + 1); }
  }

  lemma {:induction false} ShlBound(q: nat, k: nat, j: nat)
    requires q < Pow2(j)
    ensures Shl(q, k) < Pow2(k + j)
  {
    if k > 0 { ShlBound(q, k - 1, j); }
  }

  lemma {:induction false} ShrHalf(v: nat, k: nat)
    ensures Shr(v / 2, k) == Shr(v, k + 1)
  {
    if k > 0 { ShrHalf(v, k - 1); }
  }

  /** Character i of an MSB-first string of length n is bit n-1-i. */
  lemma {:induction false} BitsOfAt(v: nat, n: nat, i: nat)
    requires i < n
    ensures BitsOf(v, n)[i] == Bit(v, n - 1 - i)
  {
    if i < n - 1 {
      BitsOfAt(v / 2, n - 1, i);
      ShrHalf(v, n - 2 - i);
    }
  }

  /** Reading a field back from the front of a longer string. */
  lemma FieldBack(v: nat, n: nat, rest: seq<bool>)
    ensures var s := BitsOf(v, n) + rest;
            |s| >= n && s[..n] == BitsOf(v, n) && s[n..] == rest && ValueOf(s[..n]) == Low(v, n)
    ensures v < Pow2(n) ==> Low(v, n) == v
  {
    var s := BitsOf(v, n) + rest;
    assert s[..n] == BitsOf(v, n);
    ReadBack(v, n);
    LowIs(v, n);
  }
}
