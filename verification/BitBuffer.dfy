/** The packet buffer that the mfx and the DCC encoders share: a bit stream in
    bytes, behind one byte for its length. */
module BitBuffer {

  const PKTSIZE := 80

  // ---------- the stream buffer: byte 0 aside, bit i is bit i%8 of byte 1+i/8 ----------

  /** 1 << k for a bit inside a byte. */
  function Mask(k: nat): bv8
    requires k < 8
  {
    if k == 0 then 0x01 else if k == 1 then 0x02 else if k == 2 then 0x04 else if k == 3 then 0x08
    else if k == 4 then 0x10 else if k == 5 then 0x20 else if k == 6 then 0x40 else 0x80
  }

  predicate StreamBit(s: seq<bv8>, i: nat)
    requires 1 + i / 8 < |s|
  {
    s[1 + i / 8] & Mask(i % 8) != 0
  }

  /** The first n bits of a stream. */
  function StreamBits(s: seq<bv8>, n: nat): seq<bool>
    requires n <= 8 * (|s| - 1)
  {
    seq(n, i requires 0 <= i < n => StreamBit(s, i))
  }

  /** The stream carries exactly the bits b and is zero behind them. */
  ghost predicate Holds(s: seq<bv8>, b: seq<bool>) {
    && |b| <= 8 * (|s| - 1)
    && forall i :: 0 <= i < 8 * (|s| - 1) ==> StreamBit(s, i) == (i < |b| && b[i])
  }

  lemma OrMask(x: bv8, j: nat, k: nat)
    requires j < 8 && k < 8
    ensures ((x | Mask(j)) & Mask(k) != 0) == (x & Mask(k) != 0 || j == k)
  {
  }

  lemma SamePlace(i: nat, j: nat)
    ensures i / 8 == j / 8 && i % 8 == j % 8 <==> i == j
  {
  }

  lemma BitAfterSet(s: seq<bv8>, p: nat, i: nat)
    requires 1 + p / 8 < |s| && 1 + i / 8 < |s|
    ensures StreamBit(s[1 + p / 8 := s[1 + p / 8] | Mask(p % 8)], i) == (StreamBit(s, i) || i == p)
  {
    hide Mask;
    SamePlace(i, p);
    if i / 8 == p / 8 { OrMask(s[1 + p / 8], p % 8, i % 8); }
  }

  lemma SetStreamBit(s: seq<bv8>, b: seq<bool>)
    requires Holds(s, b) && |b| < 8 * (|s| - 1)
    ensures var p := |b|; Holds(s[1 + p / 8 := s[1 + p / 8] | Mask(p % 8)], b + [true])
  {
    hide Mask, StreamBit;
    var p := |b|;
    var t := s[1 + p / 8 := s[1 + p / 8] | Mask(p % 8)];
    forall i | 0 <= i < 8 * (|t| - 1)
      ensures StreamBit(t, i) == (i < |b + [true]| && (b + [true])[i])
    {
      assert StreamBit(s, i) == (i < |b| && b[i]);
      BitAfterSet(s, p, i);
    }
  }

  lemma SkipStreamBit(s: seq<bv8>, b: seq<bool>)
    requires Holds(s, b) && |b| < 8 * (|s| - 1)
    ensures Holds(s, b + [false])
  {
  }
}
