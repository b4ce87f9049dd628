/** A decoder's receiver: it measures runs of equal half-bit levels, finds the
    syncs by their isolated half bit, and drops the stuffed zeros. */
module MfxReceiver {
  import opened Options
  import opened MfxPacket
  import opened MfxWave
  import opened MfxCrc
  import opened Sequences

  /** Run lengths of a level sequence. */
  function Runs(w: seq<bool>): (r: seq<nat>)
    ensures w != [] ==> r != [] && r[0] >= 1
  {
    if w == [] then []
    else
      var r := Runs(w[1..]);
      if |w| > 1 && w[1] == w[0] then [r[0] + 1] + r[1..] else [1] + r
  }

  /** Payload bits up to the next sync: a run of 2 is a 0, two runs of 1 are a 1,
      and 2, 1, 2 or more is a sync. */
  function PayloadOf(r: seq<nat>): Option<seq<bool>>
    decreases |r|
  {
    if |r| >= 3 && r[0] == 2 && r[1] == 1 && r[2] >= 2 then Some([])
    else if |r| >= 1 && r[0] == 2 then
      var rest :- PayloadOf(r[1..]);
      Some([false] + rest)
    else if |r| >= 2 && r[0] == 1 && r[1] == 1 then
      var rest :- PayloadOf(r[2..]);
      Some([true] + rest)
    else None
  }

  /** Drops the 0 that must follow eight 1s. */
  function Unstuffed(s: seq<bool>, ones: nat): Option<seq<bool>>
    decreases |s|
  {
    if ones == 8 then if s == [] || s[0] then None else Unstuffed(s[1..], 0)
    else if s == [] then Some([])
    else
      var rest :- Unstuffed(s[1..], if s[0] then ones + 1 else 0);
      Some([s[0]] + rest)
  }

  /** Idle level, two half syncs, payload, sync. */
  function Receive(w: seq<bool>): Option<seq<bool>> {
    var r := Runs(w);
    if |r| < 7 || r[..7] != [8, 2, 1, 2, 2, 1, 2] || w[0] then None
    else
      var s :- PayloadOf(r[7..]);
      Unstuffed(s, 0)
  }

  // ---------- run lengths of the coded payload ----------

  function BitRuns(t: seq<bool>): seq<nat>
    decreases |t|
  {
    if t == [] then [] else (if t[0] then [1, 1] else [2]) + BitRuns(t[1..])
  }

  lemma RunOne(x: bool, w: seq<bool>)
    ensures w != [] && w[0] != x ==> Runs([x] + w) == [1] + Runs(w)
    ensures w != [] && w[0] == x ==> Runs([x] + w) == [Runs(w)[0] + 1] + Runs(w)[1..]
  {
    assert ([x] + w)[1..] == w;
  }

  lemma RunTwo(x: bool, w: seq<bool>)
    requires w != [] && w[0] != x
    ensures Runs([x, x] + w) == [2] + Runs(w)
  {
    RunOne(x, w);
    RunOne(x, [x] + w);
    assert [x, x] + w == [x] + ([x] + w);
  }

  lemma {:induction false} CodedRuns(l: bool, t: seq<bool>, rest: seq<bool>)
    requires rest != [] && rest[0] != CodedLevel(l, t)
    ensures (Coded(l, t) + rest)[0] != l
    ensures Runs(Coded(l, t) + rest) == BitRuns(t) + Runs(rest)
    decreases |t|
  {
    hide Runs, Coded, CodedLevel, BitRuns, BitWave;
    CodedFirst(l, t);
    if t == [] {
      assert [] + rest == rest;
      assert [] + Runs(rest) == Runs(rest);
    } else {
      var w := Coded(l == t[0], t[1..]) + rest;
      CodedRuns(l == t[0], t[1..], rest);
      BitRun(l, t[0], w);
      Assoc(BitWave(l, t[0]), Coded(l == t[0], t[1..]), rest);
      Assoc(if t[0] then [1, 1] else [2], BitRuns(t[1..]), Runs(rest));
    }
  }

  lemma CodedFirst(l: bool, t: seq<bool>)
    ensures t == [] ==> Coded(l, t) == [] && BitRuns(t) == [] && CodedLevel(l, t) == l
    ensures t != [] ==>
              && Coded(l, t) == BitWave(l, t[0]) + Coded(l == t[0], t[1..])
              && BitRuns(t) == (if t[0] then [1, 1] else [2]) + BitRuns(t[1..])
              && CodedLevel(l, t) == CodedLevel(l == t[0], t[1..])
  {
  }

  lemma BitRun(l: bool, v: bool, w: seq<bool>)
    requires w != [] && w[0] == (l != v)
    ensures (BitWave(l, v) + w)[0] != l
    ensures Runs(BitWave(l, v) + w) == (if v then [1, 1] else [2]) + Runs(w)
  {
    hide Runs;
    if v {
      RunOne(l, w);
      RunOne(!l, [l] + w);
      assert [!l, l] + w == [!l] + ([l] + w);
    } else {
      RunTwo(!l, w);
    }
  }

  /** Runs of a half sync whose last run goes on with w. */
  lemma SyncRuns(l: bool, w: seq<bool>)
    ensures var r := Runs(HSync(l) + w);
            && |r| >= 3 && r[..2] == [2, 1] && r[2] >= 2
            && (w != [] && w[0] == l ==> r == [2, 1, 2] + Runs(w))
  {
    RunEnd(!l);
    hide Runs;
    var v := [!l, !l] + w;
    RunOne(!l, w);
    RunOne(!l, [!l] + w);
    assert v == [!l] + ([!l] + w);
    RunOne(l, v);
    RunTwo(!l, [l] + v);
    assert HSync(l) + w == [!l, !l] + ([l] + v);
    if w == [] { assert [!l] + w == [!l]; }
  }

  lemma RunEnd(x: bool)
    ensures Runs([x]) == [1]
  {
    assert [x][1..] == [];
  }

  lemma {:induction false} PayloadIs(t: seq<bool>, more: seq<nat>)
    requires |more| >= 3 && more[0] == 2 && more[1] == 1 && more[2] >= 2
    ensures PayloadOf(BitRuns(t) + more) == Some(t)
    decreases |t|
  {
    if t == [] {
      assert BitRuns(t) + more == more;
    } else {
      var r := BitRuns(t[1..]) + more;
      PayloadIs(t[1..], more);
      assert t == [t[0]] + t[1..];
      if t[0] {
        assert BitRuns(t) + more == [1, 1] + r;
        assert ([1, 1] + r)[2..] == r;
      } else {
        assert BitRuns(t) + more == [2] + r;
        assert ([2] + r)[1..] == r;
      }
    }
  }

  lemma {:induction false} UnstuffedIs(bits: seq<bool>, ones: nat)
    requires ones < 8
    ensures Unstuffed(Stuffed(bits, ones), ones) == Some(bits)
    decreases |bits|
  {
    if bits != [] {
      var s := Stuffed(bits, ones);
      assert bits == [bits[0]] + bits[1..];
      if bits[0] && ones == 7 {
        UnstuffedIs(bits[1..], 0);
        assert s[1..] == [false] + Stuffed(bits[1..], 0);
        assert s[1..][1..] == Stuffed(bits[1..], 0);
      } else {
        UnstuffedIs(bits[1..], if bits[0] then ones + 1 else 0);
        assert s[1..] == Stuffed(bits[1..], if bits[0] then ones + 1 else 0);
      }
    }
  }

  // ---------- the main results ----------

  lemma HeadRuns(bits: seq<bool>, rest: seq<bool>)
    ensures var w := Head(bits) + (HSync(HeadLevel(bits)) + rest);
            && !w[0]
            && Runs(w) == [8, 2, 1, 2, 2, 1, 2] + (BitRuns(Stuffed(bits, 0)) + Runs(HSync(HeadLevel(bits)) + rest))
  {
    var t := Stuffed(bits, 0);
    var tail := HSync(HeadLevel(bits)) + rest;
    var p := Coded(false, t) + tail;
    CodedRuns(false, t, tail);
    TwoSyncs(p);
    HeadSplit(bits, tail);
    Idle8(HSync(false) + (HSync(true) + p));
    hide Runs, Coded, HSync, Stuffed, BitRuns, Head, HeadLevel;
    JoinRuns(Runs(p));
  }

  lemma JoinRuns(r: seq<nat>)
    ensures [8] + ([2, 1, 2] + ([2, 1, 2] + r)) == [8, 2, 1, 2, 2, 1, 2] + r
  {
  }

  lemma TwoSyncs(p: seq<bool>)
    requires p != [] && p[0]
    ensures Runs(HSync(false) + (HSync(true) + p)) == [2, 1, 2] + ([2, 1, 2] + Runs(p))
  {
    hide Runs;
    SyncRuns(true, p);
    SyncRuns(false, HSync(true) + p);
  }

  lemma HeadSplit(bits: seq<bool>, tail: seq<bool>)
    ensures Head(bits) + tail ==
            [false, false, false, false, false, false, false, false] +
            (HSync(false) + (HSync(true) + (Coded(false, Stuffed(bits, 0)) + tail)))
  {
    assert HSyncs(true, 1) == HSync(true) + [];
    assert HSyncs(false, 2) == HSync(false) + HSync(true);
    hide Coded, HSync, HSyncs, Stuffed;
  }

  lemma Idle8(s: seq<bool>)
    requires s != [] && s[0]
    ensures Runs([false, false, false, false, false, false, false, false] + s) == [8] + Runs(s)
  {
    hide Runs;
    var w1 := [false] + s;
    var w2 := [false] + w1;
    var w3 := [false] + w2;
    var w4 := [false] + w3;
    var w5 := [false] + w4;
    var w6 := [false] + w5;
    var w7 := [false] + w6;
    RunOne(false, s);
    RunOne(false, w1);
    RunOne(false, w2);
    RunOne(false, w3);
    RunOne(false, w4);
    RunOne(false, w5);
    RunOne(false, w6);
    RunOne(false, w7);
    assert [false, false, false, false, false, false, false, false] + s == [false] + w7;
  }

  /** The receiver recovers exactly the packet bits, whatever follows the sync. */
  lemma Received(bits: seq<bool>, rest: seq<bool>)
    ensures Receive(Head(bits) + (HSync(HeadLevel(bits)) + rest)) == Some(bits)
  {
    var t := Stuffed(bits, 0);
    var w := Head(bits) + (HSync(HeadLevel(bits)) + rest);
    var more := Runs(HSync(HeadLevel(bits)) + rest);
    HeadRuns(bits, rest);
    SyncRuns(HeadLevel(bits), rest);
    assert more[..2][0] == 2 && more[..2][1] == 1;
    PayloadIs(t, more);
    UnstuffedIs(bits, 0);
    hide Runs, PayloadOf, Unstuffed, Head, HSync, BitRuns;
    assert Runs(w)[7..] == BitRuns(t) + more && Runs(w)[..7] == [8, 2, 1, 2, 2, 1, 2];
  }

  /** Every buffer that convertMFXPacketToSPIStream fills, of any packet type, is
      received as the packet bits it was filled with. */
  lemma WaveReceived(t: PacketType, bits: seq<bool>, b: seq<bv8>)
    requires IsWave(t, bits, b)
    ensures Receive(Levels(b)) == Some(bits)
  {
    var l := HeadLevel(bits);
    var n := |Head(bits)|;
    var sync := Bytes(HSync(l));
    StartsWithSync(t, bits, b);
    var rest := Levels(b[n + 5..]);
    assert Levels(b) == Head(bits) + (HSync(l) + rest) by {
      assert b == Bytes(Head(bits)) + (sync + b[n + 5..]);
      LevelsOf(Head(bits), sync + b[n + 5..]);
      LevelsOf(HSync(l), b[n + 5..]);
    }
    Received(bits, rest);
  }

  lemma LevelsOf(w: seq<bool>, b: seq<bv8>)
    ensures Levels(Bytes(w) + b) == w + Levels(b)
  {
  }

  lemma StartsWithSync(t: PacketType, bits: seq<bool>, b: seq<bv8>)
    requires IsWave(t, bits, b)
    ensures var n, s := |Head(bits)|, Bytes(HSync(HeadLevel(bits)));
            n + 5 <= |b| && b[..n] == Bytes(Head(bits)) && b[n..n + 5] == s
            && b == Bytes(Head(bits)) + (s + b[n + 5..])
  {
    var l, n := HeadLevel(bits), |Head(bits)|;
    SyncFirst(l, 5);
    RdsSyncStart(l);
    var s := Bytes(if t == Plain then HSyncs(l, 5) else RdsSync(l));
    var tail := b[n..];
    TailStart(t, l, tail);
    hide IsWave, Head, HeadLevel, HSyncs, HSync, Bytes, RdsSync;
    assert tail[..5] == tail[..|s|][..5];
    SplitFive(b, n);
  }

  lemma SplitFive(b: seq<bv8>, n: nat)
    requires n + 5 <= |b|
    ensures b[n..n + 5] == b[n..][..5] && b == b[..n] + (b[n..n + 5] + b[n + 5..])
  {
  }

  lemma TailStart(t: PacketType, l: bool, tail: seq<bv8>)
    requires if IsRead(t) then ReadTail(t, l, tail) else tail == Tail(t, l)
    ensures var s := Bytes(if t == Plain then HSyncs(l, 5) else RdsSync(l));
            |tail| >= |s| && tail[..|s|] == s
  {
    hide HSyncs, RdsSync, Bytes, Clocked, Repeat;
  }

  lemma SyncFirst(l: bool, k: nat)
    requires k > 0
    ensures |Bytes(HSyncs(l, k))| >= 5 && Bytes(HSyncs(l, k))[..5] == Bytes(HSync(l))
  {
    BytesConcat(HSync(l), HSyncs(!l, k - 1));
  }

  lemma RdsSyncStart(l: bool)
    ensures |Bytes(RdsSync(l))| >= 5 && Bytes(RdsSync(l))[..5] == Bytes(HSync(l))
  {
    var k := RdsSyncCount(l);
    SyncFirst(l, k);
    BytesConcat(HSyncs(l, k), Coded(true, [false, false, true, true]));
    hide HSyncs, Coded;
    assert Bytes(RdsSync(l))[..5] == Bytes(HSyncs(l, k))[..5];
  }

  /** End to end: the decoder at the rail reads from the waveform the very command
      the station built, with its checksum verified. */
  lemma CommandReceived(t: PacketType, c: Command, b: seq<bv8>)
    requires Valid(c) && IsWave(t, Closed(CommandBits(c)), b)
    ensures var r := Receive(Levels(b)); r.Some? && ReadPacket(r.value) == Some(c)
  {
    WaveReceived(t, Closed(CommandBits(c)), b);
    PacketReadBack(c);
  }

  // ---------- no false syncs ----------

  /** Coded bits change level at every even position. */
  lemma {:induction false} EdgeAtEveryBit(l: bool, t: seq<bool>, j: nat)
    requires j < |t|
    ensures var w := Coded(l, t); w[2 * j] != if j == 0 then l else w[2 * j - 1]
    decreases |t|
  {
    var w := Coded(l == t[0], t[1..]);
    assert Coded(l, t) == BitWave(l, t[0]) + w;
    if j > 0 {
      EdgeAtEveryBit(l == t[0], t[1..], j - 1);
    }
  }

  /** No isolated half bit between two full ones, the signature of a sync, ever
      occurs inside the payload, whatever the packet. */
  lemma NoSyncInPayload(l: bool, t: seq<bool>, i: nat)
    requires 2 <= i && i + 2 < |Coded(l, t)|
    ensures var w := Coded(l, t);
            !(w[i - 2] == w[i - 1] && w[i - 1] != w[i] && w[i] != w[i + 1] && w[i + 1] == w[i + 2])
  {
    if i % 2 == 0 {
      EdgeAtEveryBit(l, t, (i + 2) / 2);
    } else {
      EdgeAtEveryBit(l, t, (i - 1) / 2);
    }
  }

  // ---------- lengths ----------

  lemma {:induction false} StuffedLength(bits: seq<bool>, ones: nat)
    requires ones < 8
    ensures |bits| <= |Stuffed(bits, ones)|
    ensures 8 * (|Stuffed(bits, ones)| - |bits|) <= |bits| + ones
    decreases |bits|
  {
    if bits != [] {
      StuffedLength(bits[1..], if bits[0] && ones < 7 then ones + 1 else 0);
    }
  }

  /** The 1600-byte buffer of send_packet is never overrun: any packet with a
      length byte and at most a carrier answer takes at most 999 bytes, a read
      packet (of at most 50 bits) at most 1541; and a packet without feedback
      reaches the 96 bytes of a DMA transfer iff it has 23 bits after stuffing. */
  lemma BufferFits(t: PacketType, bits: seq<bool>)
    requires |bits| <= if IsRead(t) then 50 else 255
    ensures SpiLen(t, bits) <= (if IsRead(t) then 1541 else 999) <= 1600
    ensures t == Plain ==> (SpiLen(t, bits) >= 96 <==> |Stuffed(bits, 0)| >= 23)
    ensures t == Plain && |bits| >= 23 ==> SpiLen(t, bits) >= 96
  {
    StuffedLength(bits, 0);
  }

  // ---------- the syncs for the answer ----------

  /** What a decoder measures of n half syncs. */
  function SyncPattern(n: nat): seq<nat> {
    if n == 0 then [] else [2, 1, 2] + SyncPattern(n - 1)
  }

  lemma {:induction false} HSyncsRuns(l: bool, n: nat, w: seq<bool>)
    requires w != [] && w[0] != LevelAfter(l, n)
    ensures (HSyncs(l, n) + w)[0] != l
    ensures Runs(HSyncs(l, n) + w) == SyncPattern(n) + Runs(w)
    decreases n
  {
    hide Runs;
    if n == 0 {
      assert HSyncs(l, n) + w == w && SyncPattern(n) + Runs(w) == Runs(w);
    } else {
      var rest := HSyncs(!l, n - 1) + w;
      HSyncsRuns(!l, n - 1, w);
      SyncRuns(l, rest);
      assert HSyncs(l, n) + w == HSync(l) + rest;
      assert SyncPattern(n) + Runs(w) == [2, 1, 2] + (SyncPattern(n - 1) + Runs(w));
    }
  }

  /** The synchronisation for an answer is 22 half syncs, or 23 from a low level, and
      the bits 0, 0, 1, 1; it ends high, whatever follows it from a low level on. */
  lemma RdsSyncRuns(l: bool, w: seq<bool>)
    requires w != [] && !w[0]
    ensures Runs(RdsSync(l) + w) == SyncPattern(if l then 22 else 23) + [2, 2, 1, 1, 1, 1] + Runs(w)
  {
    var bits, n: nat := [false, false, true, true], if l then 22 else 23;
    assert LevelAfter(l, n);
    hide Runs, SyncPattern, HSyncs, Coded, BitRuns, CodedLevel, LevelAfter;
    BitRunsOf();
    CodedRuns(true, bits, w);
    HSyncsRuns(l, n, Coded(true, bits) + w);
    Assoc(HSyncs(l, n), Coded(true, bits), w);
    Assoc(SyncPattern(n), [2, 2, 1, 1, 1, 1], Runs(w));
  }

  lemma BitRunsOf()
    ensures BitRuns([false, false, true, true]) == [2, 2, 1, 1, 1, 1]
    ensures CodedLevel(true, [false, false, true, true])
  {
    assert [false, false, true, true][1..] == [false, true, true];
    assert [false, true, true][1..] == [true, true];
    assert [true, true][1..] == [true];
    assert [true][1..] == [];
  }

  /** After the synchronisation a decoder has two quiet times of 128 bytes for its
      answer, one at the low and one at the high level, with two half syncs between
      them and four behind the second. */
  lemma AnswerWindows(t: PacketType, l: bool)
    requires t == AckDiscovery || t == AckVerify
    ensures var w, n := Levels(Tail(t, l)), if l then 118 else 123;
            && |w| == n + 286 && w[..n] == RdsSync(l)
            && (forall k :: n <= k < n + 128 ==> !w[k])
            && w[n + 128..n + 138] == HSync(false) + HSync(true)
            && (forall k :: n + 138 <= k < n + 266 ==> w[k])
            && w[n + 266..] == HSync(true) + HSync(false) + HSync(true) + HSync(false)
  {
    HalfSyncs();
    assert |RdsSync(l)| == if l then 118 else 123;
    hide HSyncs, HSync, RdsSync;
    var r, a, b := RdsSync(l), HSyncs(false, 2), HSyncs(true, 4);
    LevelsJoined(Bytes(r) + Repeat(0x00, 128) + Bytes(a) + Repeat(0xFF, 128), Bytes(b));
    LevelsJoined(Bytes(r) + Repeat(0x00, 128) + Bytes(a), Repeat(0xFF, 128));
    LevelsJoined(Bytes(r) + Repeat(0x00, 128), Bytes(a));
    LevelsJoined(Bytes(r), Repeat(0x00, 128));
    LevelsBack(r);
    LevelsBack(a);
    LevelsBack(b);
    FiveParts(r, Levels(Repeat(0x00, 128)), a, Levels(Repeat(0xFF, 128)), b);
    hide Bytes, Levels, Repeat;
  }

  lemma HalfSyncs()
    ensures HSyncs(false, 2) == HSync(false) + HSync(true)
    ensures HSyncs(true, 4) == HSync(true) + HSync(false) + HSync(true) + HSync(false)
  {
    hide HSync;
    assert HSyncs(true, 0) == [] && HSyncs(false, 0) == [];
    assert HSyncs(true, 1) == HSync(true) + [] && HSyncs(false, 1) == HSync(false) + [];
    assert HSyncs(true, 2) == HSync(true) + HSyncs(false, 1);
    assert HSyncs(false, 3) == HSync(false) + HSyncs(true, 2);
  }

  lemma LevelsBack(w: seq<bool>)
    ensures Levels(Bytes(w)) == w
  {
  }

  lemma LevelsJoined(a: seq<bv8>, b: seq<bv8>)
    ensures Levels(a + b) == Levels(a) + Levels(b)
  {
  }

  lemma FiveParts(a: seq<bool>, b: seq<bool>, c: seq<bool>, d: seq<bool>, e: seq<bool>)
    ensures var w, i, j, k := a + b + c + d + e, |a| + |b|, |a| + |b| + |c|, |a| + |b| + |c| + |d|;
            && w[..|a|] == a && w[i..j] == c && w[k..] == e
            && (forall x :: |a| <= x < i ==> w[x] == b[x - |a|])
            && (forall x :: j <= x < k ==> w[x] == d[x - j])
  {
  }

  /** A packet without an answer ends with five half syncs and eight quiet bytes. */
  lemma PlainEnd(l: bool)
    ensures Levels(Tail(Plain, l)) == HSync(l) + HSync(!l) + HSync(l) + HSync(!l) + HSync(l)
                                      + [false, false, false, false, false, false, false, false]
  {
    hide HSync;
    assert HSyncs(!l, 0) == [] && HSyncs(l, 1) == HSync(l) + [];
    assert HSyncs(!l, 2) == HSync(!l) + HSyncs(l, 1) && HSyncs(l, 3) == HSync(l) + HSyncs(!l, 2);
    assert HSyncs(l, 5) == HSync(l) + (HSync(!l) + HSyncs(l, 3));
    hide HSyncs;
    LevelsBack(HSyncs(l, 5));
    LevelsJoined(Bytes(HSyncs(l, 5)), Repeat(0, 8));
  }

  // ---------- the clock for the answer ----------

  /** At 6.25 us an SPI bit, a pulse of 25 us ends every 912.5 us, 23 times, and then
      every 456.25 us. */
  lemma PulseTimes(k: nat)
    ensures k < 146 ==> (InPulse(k) <==> k >= 142)
    ensures k + 146 < 3358 ==> InPulse(k + 146) == InPulse(k)
    ensures 3358 <= k < 3431 ==> (InPulse(k) <==> k >= 3427)
    ensures k >= 3358 ==> InPulse(k + 73) == InPulse(k)
  {
    assert (k + 146) % 146 == k % 146;
    if k >= 3358 {
      var r := k - 3358;
      assert (r + 73) % 73 == r % 73;
    }
  }

  /** Pulses that end among the first n SPI bits. */
  function PulsesIn(n: nat): nat {
    if n == 0 then 0 else PulsesIn(n - 1) + if InPulse(n - 1) && !InPulse(n) then 1 else 0
  }

  lemma {:induction false} NoPulseEnds(b: nat, len: nat, j: nat)
    requires j < len && forall k :: b <= k < b + len ==> (InPulse(k) <==> k >= b + len - PULSE)
    ensures PulsesIn(b + j) == PulsesIn(b)
    decreases j
  {
    hide InPulse;
    if j > 0 {
      NoPulseEnds(b, len, j - 1);
      assert InPulse(b + j - 1) ==> InPulse(b + j);
    }
  }

  lemma OnePulse(b: nat, len: nat)
    requires len > PULSE && forall k :: b <= k < b + len ==> (InPulse(k) <==> k >= b + len - PULSE)
    requires !InPulse(b + len)
    ensures PulsesIn(b + len) == PulsesIn(b) + 1
  {
    NoPulseEnds(b, len, len - 1);
    hide InPulse;
    assert InPulse(b + len - 1);
  }

  lemma {:induction false} SyncPulses(i: nat)
    requires i <= 23
    ensures PulsesIn(146 * i) == i
    decreases i
  {
    if i > 0 {
      SyncPulses(i - 1);
      PeriodPulse(i - 1);
      assert !InPulse(146 * i);
      hide InPulse;
      OnePulse(146 * (i - 1), 146);
    }
  }

  lemma {:induction false} DataPulses(i: nat)
    ensures PulsesIn(3358 + 73 * i) == 23 + i
    decreases i
  {
    if i == 0 {
      SyncPulses(23);
    } else {
      DataPulses(i - 1);
      HalfPeriodPulse(i - 1);
      HalfPeriodPulse(i);
      assert !InPulse(3358 + 73 * i);
      hide InPulse;
      OnePulse(3358 + 73 * (i - 1), 73);
    }
  }

  /** A decoder that answers a read gets 23 pulses to synchronise and two for each
      bit: the start pattern 010, one, two or four bytes, the checksum and four more. */
  lemma PulsesSuffice(t: PacketType)
    requires IsRead(t)
    ensures var bytes := match t case Read8 => 1 case Read16 => 2 case Read32 => 4;
            PulsesIn(ClockBits(t)) == 23 + 2 * (3 + 8 * bytes + 8 + 4)
  {
    hide InPulse;
    DataPulses(2 * RdsBits(t));
    assert ClockBits(t) == 3358 + 73 * (2 * RdsBits(t));
  }
}
