/** Bytes as bit strings, highest bit first, and how two bit strings differ. */
module BitStrings {

  function ToBits(x: bv8): (s: seq<bool>)
    ensures |s| == 8
  {
    [x & 0x80 != 0, x & 0x40 != 0, x & 0x20 != 0, x & 0x10 != 0,
     x & 0x08 != 0, x & 0x04 != 0, x & 0x02 != 0, x & 0x01 != 0]
  }

  function FromBits(s: seq<bool>): bv8
    requires |s| == 8
  {
    (if s[0] then 0x80 else 0) | (if s[1] then 0x40 else 0) | (if s[2] then 0x20 else 0) |
    (if s[3] then 0x10 else 0) | (if s[4] then 0x08 else 0) | (if s[5] then 0x04 else 0) |
    (if s[6] then 0x02 else 0) | (if s[7] then 0x01 else 0)
  }

  lemma ToFromBits(s: seq<bool>)
    requires |s| == 8
    ensures ToBits(FromBits(s)) == s
  {
  }

  function BytesBits(bytes: seq<bv8>): (s: seq<bool>)
    ensures |s| == 8 * |bytes|
  {
    if bytes == [] then [] else BytesBits(bytes[..|bytes| - 1]) + ToBits(bytes[|bytes| - 1])
  }

  lemma {:induction false} BytesBitsConcat(a: seq<bv8>, b: seq<bv8>)
    ensures BytesBits(a + b) == BytesBits(a) + BytesBits(b)
  {
    if b == [] {
      assert a + b == a;
    } else {
      assert (a + b)[..|a + b| - 1] == a + b[..|b| - 1];
      BytesBitsConcat(a, b[..|b| - 1]);
    }
  }

  /** Is the number of ones odd? */
  function OddOnes(s: seq<bool>): bool {
    s != [] && s[0] != OddOnes(s[1..])
  }

  function Differences(s: seq<bool>, t: seq<bool>): nat
    requires |s| == |t|
  {
    if s == [] then 0 else (if s[0] != t[0] then 1 else 0) + Differences(s[1..], t[1..])
  }

  lemma {:induction false} DifferencesParity(s: seq<bool>, t: seq<bool>)
    requires |s| == |t|
    ensures (OddOnes(s) != OddOnes(t)) <==> Differences(s, t) % 2 == 1
  {
    if s != [] {
      DifferencesParity(s[1..], t[1..]);
    }
  }
}
