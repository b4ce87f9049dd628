/** The reassembly of a configuration stream from CAN frames: a header frame
    gives size and CRC, data frames of eight bytes follow, and the stream is
    judged when enough bytes have arrived. */
module ConfigStream {
  import opened Crc16
  import opened Crc16Errors
  import opened Options
  import opened Sequences

  datatype Frame = Frame(id: bv32, data: seq<bv8>)

  datatype Verdict = Nothing | Accepted(bytes: seq<bv8>) | Rejected(bytes: seq<bv8>)

  /** What the monitor is collecting. */
  datatype Stream = Idle | Collecting(size: int, crc: bv16, got: seq<bv8>)

  // ---------- frames ----------

  function Unsigned(d: seq<bv8>): int
    requires |d| >= 4
  {
    ((d[0] as int * 256 + d[1] as int) * 256 + d[2] as int) * 256 + d[3] as int
  }

  /** be32, kept in an int of 32 bits. */
  function Size(d: seq<bv8>): int
    requires |d| >= 4
  {
    var u := Unsigned(d);
    if u >= 0x8000_0000 then u - 0x1_0000_0000 else u
  }

  function HeaderCrc(d: seq<bv8>): bv16
    requires |d| >= 6
  {
    ((d[4] as bv16) << 8) | (d[5] as bv16)
  }

  predicate IsHeader(f: Frame) { |f.data| == 6 || |f.data| == 7 }

  predicate IsTrigger(f: Frame) { f.id & 0x01FF_FF00 == 0x0043_4700 }

  predicate IsData(f: Frame) { |f.data| == 8 && !IsTrigger(f) }

  // ---------- the specification, on values ----------

  function Judge(bytes: seq<bv8>, crc: bv16): (v: Verdict)
    ensures v.Accepted? <==> Crc(0xFFFF, bytes) == crc
    ensures !v.Nothing? && v.bytes == bytes
  {
    if Crc(0xFFFF, bytes) == crc then Accepted(bytes) else Rejected(bytes)
  }

  function Opened(f: Frame): Stream
    requires IsHeader(f)
  {
    if Size(f.data) < -8 then Idle else Collecting(Size(f.data), HeaderCrc(f.data), [])
  }

  function Step(s: Stream, f: Frame): (Stream, Verdict) {
    if IsHeader(f) then
      (Opened(f), Nothing)
    else if !IsData(f) || s.Idle? then
      (s, Nothing)
    else
      var got := if |s.got| < s.size then s.got + f.data else s.got;
      if |got| >= s.size then (Idle, Judge(got, s.crc)) else (s.(got := got), Nothing)
  }

  /** What printf writes of a C string: the bytes up to the first 0. */
  function Text(b: seq<bv8>): (t: seq<bv8>)
    ensures t <= b && 0 !in t && (t != b ==> b[|t|] == 0)
  {
    if b == [] || b[0] == 0 then [] else [b[0]] + Text(b[1..])
  }

  lemma {:induction false} TextEnds(b: seq<bv8>)
    ensures Text(b + [0]) == Text(b)
  {
    if b != [] && b[0] != 0 {
      assert (b + [0])[1..] == b[1..] + [0];
      TextEnds(b[1..]);
    }
  }

  /** A text is printed whole if and only if there is no 0 in it. */
  lemma {:induction false} TextWhole(b: seq<bv8>)
    ensures Text(b) == b <==> 0 !in b
  {
    if b != [] {
      TextWhole(b[1..]);
      assert b == [b[0]] + b[1..];
    }
  }

  /** The text that is printed of an accepted stream, out of its announced number of
      bytes, when it is wanted and not compressed, which a first byte of 0 says. */
  function Exported(s: Stream, v: Verdict, wanted: bool): Option<seq<bv8>> {
    if wanted && v.Accepted? && v.bytes != [] && v.bytes[0] != 0 && s.Collecting? && 0 <= s.size <= |v.bytes|
    then Some(Text(v.bytes[..s.size])) else None
  }

  // ---------- the program ----------

  class Monitor {
    var size: int
    var counter: int
    var crc: bv16
    var data: array?<bv8>

    constructor ()
      ensures Valid() && State() == Idle
    {
      size, counter, crc, data := 0, 0, 0, null;
    }

    /** Between two frames the buffer always has room for eight more bytes. */
    ghost predicate Valid()
      reads this, data
    {
      && (data == null ==> counter >= size)
      && (data != null ==>
      && data.Length == size + 8
      && 0 <= counter <= data.Length
      && (counter < size || counter == 0))
    }

    ghost function State(): Stream
      reads this, data
      requires Valid()
    {
      if data == null then Idle else Collecting(size, crc, data[..counter])
    }

    /** Header frames; malloc gives a buffer when size + 8 does not wrap. */
    method Begin(f: Frame)
      requires Valid() && IsHeader(f)
      modifies this
      ensures Valid() && State() == Opened(f)
      ensures data == null || fresh(data)
    {
      hide Size, HeaderCrc;
      size, crc, counter := Size(f.data), HeaderCrc(f.data), 0;
      if size < -8 {
        data := null;
      } else {
        data := new bv8[size + 8];
      }
    }

    method Collect(f: Frame, expconf: bool) returns (verdict: Verdict, text: Option<seq<bv8>>)
      requires Valid() && IsData(f)
      modifies this, data
      ensures Valid() && (State(), verdict) == Step(old(State()), f)
      ensures text == Exported(old(State()), verdict, expconf)
      ensures data == null || data == old(data)
    {
      hide Crc, Text;
      verdict, text := Nothing, None;
      if counter < size {
        ghost var before := data[..counter];
        forall j | 0 <= j < 8 { data[counter + j] := f.data[j]; }
        assert data[..counter] == before;
        assert data[counter..counter + 8] == f.data;
        counter := counter + 8;
        assert data[..counter] == before + f.data;
      }
      if counter >= size && data != null {
        var found := CrcCcitt(data, counter, 0xFFFF);
        if found == crc {
          verdict := Accepted(data[..counter]);
          ghost var bytes := data[..counter];
          if counter > 0 && data[0] != 0 && expconf {
            data[size] := 0;
            text := Some(Text(data[..size + 1]));
            assert data[..size + 1] == bytes[..size] + [0];
            TextEnds(bytes[..size]);
          }
        } else {
          verdict := Rejected(data[..counter]);
        }
        data := null;
      }
    }

    /** decode_cs2_config_data */
    method Decode(f: Frame, expconf: bool) returns (verdict: Verdict, text: Option<seq<bv8>>)
      requires Valid()
      modifies this, data
      ensures Valid() && (State(), verdict) == Step(old(State()), f)
      ensures text == Exported(old(State()), verdict, expconf)
      ensures data == null || data == old(data) || fresh(data)
    {
      hide Size, HeaderCrc, Judge;
      verdict, text := Nothing, None;
      if |f.data| == 6 || |f.data| == 7 {
        Begin(f);
      } else if |f.data| == 8 && !IsTrigger(f) {
        verdict, text := Collect(f, expconf);
      }
    }
  }

  // ---------- whole runs ----------

  function Verdicts(s: Stream, fs: seq<Frame>): seq<Verdict>
    decreases |fs|
  {
    if fs == [] then []
    else
      var (t, v) := Step(s, fs[0]);
      (if v.Nothing? then [] else [v]) + Verdicts(t, fs[1..])
  }

  function StreamAfter(s: Stream, fs: seq<Frame>): Stream
    decreases |fs|
  {
    if fs == [] then s else StreamAfter(Step(s, fs[0]).0, fs[1..])
  }

  /** The bytes of the data frames in order. */
  function Payload(fs: seq<Frame>): seq<bv8> {
    if fs == [] then [] else (if IsData(fs[0]) then fs[0].data else []) + Payload(fs[1..])
  }

  /** The number of bytes at which a stream is judged: whole frames. */
  function Needed(size: int): nat {
    if size <= 0 then 0 else (size + 7) / 8 * 8
  }

  predicate NoHeader(fs: seq<Frame>) {
    forall k :: 0 <= k < |fs| ==> !IsHeader(fs[k])
  }

  lemma {:induction false} IdleStays(fs: seq<Frame>)
    requires NoHeader(fs)
    ensures Verdicts(Idle, fs) == [] && StreamAfter(Idle, fs) == Idle
    decreases |fs|
  {
    if fs != [] {
      assert !IsHeader(fs[0]);
      IdleStays(fs[1..]);
    }
  }

  lemma NextFrame(got: nat, size: int)
    requires got % 8 == 0 && got < size
    ensures got + 8 >= size <==> got + 8 == Needed(size)
    ensures got + 8 < size ==> got + 8 < Needed(size)
    ensures got < Needed(size) && got + 8 <= Needed(size)
  {
  }

  lemma PayloadStep(fs: seq<Frame>)
    requires fs != []
    ensures Payload(fs) == if IsData(fs[0]) then fs[0].data + Payload(fs[1..]) else Payload(fs[1..])
  {
  }

  /** What a stream collects and when it is judged, whatever other frames come
      between: one verdict at most, on exactly the bytes sent so far, as soon
      as they fill the announced size. */
  lemma {:induction false} Reassembled(size: int, crc: bv16, got: seq<bv8>, fs: seq<Frame>)
    requires NoHeader(fs)
    requires |got| % 8 == 0 && (|got| < size || got == [])
    ensures var all := got + Payload(fs);
            if all == got || |all| < size then
              Verdicts(Collecting(size, crc, got), fs) == []
              && StreamAfter(Collecting(size, crc, got), fs) == Collecting(size, crc, all)
            else
              Needed(size) <= |all|
              && Verdicts(Collecting(size, crc, got), fs) == [Judge(all[..Needed(size)], crc)]
              && StreamAfter(Collecting(size, crc, got), fs) == Idle
    decreases |fs|
  {
    hide Judge;
    var s := Collecting(size, crc, got);
    if fs == [] {
      assert got + Payload(fs) == got;
    } else {
      assert !IsHeader(fs[0]);
      PayloadStep(fs);
      if !IsData(fs[0]) {
        Reassembled(size, crc, got, fs[1..]);
      } else if |got| >= size {
        IdleStays(fs[1..]);
        Fewer(got, fs[0].data, Payload(fs[1..]), 0);
      } else {
        var more := got + fs[0].data;
        NextFrame(|got|, size);
        Assoc(got, fs[0].data, Payload(fs[1..]));
        if |more| >= size {
          IdleStays(fs[1..]);
          Fewer(more, [], Payload(fs[1..]), |more|);
        } else {
          Reassembled(size, crc, more, fs[1..]);
        }
      }
    }
  }

  lemma Fewer(a: seq<bv8>, b: seq<bv8>, c: seq<bv8>, n: nat)
    requires n == |a|
    ensures (a + (b + c))[..n] == a && (a + c)[..n] == a
  {
  }

  /** What is printed of an accepted stream are the first size bytes sent, up to the
      first 0; all of them if and only if there is no 0 among them. */
  lemma ExportedIs(size: int, crc: bv16, fs: seq<Frame>, p: seq<bv8>, got: seq<bv8>)
    requires NoHeader(fs) && Verdicts(Collecting(size, crc, []), fs) == [Accepted(p)]
    requires size > 0 && p != [] && p[0] != 0
    ensures size <= |Payload(fs)|
    ensures var sent, text := Payload(fs)[..size], Exported(Collecting(size, crc, got), Accepted(p), true);
            text == Some(Text(sent)) && (text == Some(sent) <==> 0 !in sent)
  {
    hide Payload, Judge, Verdicts, StreamAfter, NoHeader, Crc, Text;
    var all := Payload(fs);
    assert [] + all == all;
    Reassembled(size, crc, [], fs);
    assert p == all[..Needed(size)] && size <= Needed(size);
    assert p[..size] == all[..size];
    TextWhole(all[..size]);
  }

  lemma StopsAtZero(x: bv8, rest: seq<bv8>)
    requires x != 0
    ensures Text([x, 0] + rest) == [x]
  {
    var b := [x, 0] + rest;
    assert b[1..][0] == 0;
    assert Text(b) == [x] + Text(b[1..]);
  }

  /** A stream of eight bytes that is printed as its first one. */
  lemma TextCut()
    ensures var p: seq<bv8> := [0x61, 0x00, 0x62, 0x63, 0x64, 0x65, 0x66, 0x67];
            Exported(Collecting(8, Crc(0xFFFF, p), []), Judge(p, Crc(0xFFFF, p)), true) == Some([0x61])
  {
    hide Crc;
    var p: seq<bv8> := [0x61, 0x00, 0x62, 0x63, 0x64, 0x65, 0x66, 0x67];
    var v := Judge(p, Crc(0xFFFF, p));
    assert v == Accepted(p) && p[..8] == p;
    StopsAtZero(0x61, p[2..]);
    assert p == [0x61, 0] + p[2..];
  }

  lemma ChangedPrefix(p: seq<bv8>, q: seq<bv8>, i: nat, n: nat)
    requires ChangedAt(p, q, i) && i + 2 <= n <= |p|
    ensures ChangedAt(p[..n], q[..n], i)
  {
    if p[i] != q[i] {
      assert p[..n][i] != q[..n][i];
    } else {
      assert p[..n][i + 1] != q[..n][i + 1];
    }
  }

  /** An accepted stream that arrives again with a change in what is judged is
      judged and rejected: for a change inside any 16 bits, or of any odd number of
      bits. */
  lemma ChangeRejected(size: int, crc: bv16, fs: seq<Frame>, gs: seq<Frame>, p: seq<bv8>)
    requires NoHeader(fs) && NoHeader(gs)
    requires Verdicts(Collecting(size, crc, []), fs) == [Accepted(p)]
    requires |p| <= |Payload(gs)| && Detectable(p, Payload(gs)[..|p|])
    ensures Verdicts(Collecting(size, crc, []), gs) == [Rejected(Payload(gs)[..|p|])]
  {
    hide Payload, Judge, Needed, Verdicts, StreamAfter, NoHeader, Crc;
    var a, b := Payload(fs), Payload(gs);
    assert [] + a == a && [] + b == b;
    Reassembled(size, crc, [], fs);
    Reassembled(size, crc, [], gs);
    assert p == a[..Needed(size)];
    Detected(0xFFFF, p, b[..|p|]);
    NothingDetectable();
    hide Detectable;
    NeededIs(size);
    assert p != [];
  }

  lemma NothingDetectable()
    ensures !Detectable([], [])
  {
  }

  lemma NeededIs(size: int)
    ensures size <= Needed(size)
  {
  }

  /** In particular for one byte, or two adjacent bytes, changed on the way. */
  lemma BytesRejected(size: int, crc: bv16, fs: seq<Frame>, gs: seq<Frame>, p: seq<bv8>, i: nat)
    requires NoHeader(fs) && NoHeader(gs)
    requires Verdicts(Collecting(size, crc, []), fs) == [Accepted(p)]
    requires ChangedAt(Payload(fs), Payload(gs), i) && i + 2 <= |p|
    ensures |p| <= |Payload(gs)|
    ensures Verdicts(Collecting(size, crc, []), gs) == [Rejected(Payload(gs)[..|p|])]
  {
    hide Payload, Judge, Needed, Verdicts, StreamAfter, NoHeader, Crc;
    var a := Payload(fs);
    assert [] + a == a;
    Reassembled(size, crc, [], fs);
    assert p == a[..Needed(size)];
    ChangedPrefix(a, Payload(gs), i, |p|);
    hide ChangedAt, InWindow;
    AdjacentIsWindow(p, Payload(gs)[..|p|], i);
    ChangeRejected(size, crc, fs, gs, p);
  }

  // ---------- from the header frame on ----------

  /** Four bytes that spell a 32-bit number in two's complement, highest first. */
  predicate Spells(d: seq<bv8>, size: int)
    requires |d| >= 4
  {
    var u := if size < 0 then size + 0x1_0000_0000 else size;
    && d[0] as int == u / 0x100_0000 && d[1] as int == u / 0x1_0000 % 256
    && d[2] as int == u / 0x100 % 256 && d[3] as int == u % 256
  }

  /** Two bytes that spell a CRC, highest first. */
  predicate SpellsCrc(d: seq<bv8>, crc: bv16)
    requires |d| >= 6
  {
    d[4] as bv16 == crc >> 8 && d[5] as bv16 == crc & 0xFF
  }

  lemma BytesOf(u: int)
    requires 0 <= u < 0x1_0000_0000
    ensures ((u / 0x100_0000 * 256 + u / 0x1_0000 % 256) * 256 + u / 0x100 % 256) * 256 + u % 256 == u
  {
    assert u / 0x1_0000 == u / 0x100_0000 * 256 + u / 0x1_0000 % 256;
    assert u / 0x100 == u / 0x1_0000 * 256 + u / 0x100 % 256;
  }

  lemma CrcJoined(crc: bv16)
    ensures ((crc >> 8) << 8) | (crc & 0xFF) == crc
  {
  }

  /** A header frame opens a stream of the size and the CRC that it spells, unless
      the size is below -8. */
  lemma HeaderOpens(f: Frame, size: int, crc: bv16)
    requires |f.data| == 6 || |f.data| == 7
    requires -0x8000_0000 <= size < 0x8000_0000 && Spells(f.data, size) && SpellsCrc(f.data, crc)
    ensures Opened(f) == if size < -8 then Idle else Collecting(size, crc, [])
  {
    var u := if size < 0 then size + 0x1_0000_0000 else size;
    BytesOf(u);
    assert Size(f.data) == size;
    assert HeaderCrc(f.data) == crc by {
      hide Spells, Size, Unsigned;
      CrcJoined(crc);
    }
  }

  lemma {:induction false} StreamFirst(s: Stream, h: Frame, fs: seq<Frame>)
    requires IsHeader(h)
    ensures Verdicts(s, [h] + fs) == Verdicts(Opened(h), fs)
    ensures StreamAfter(s, [h] + fs) == StreamAfter(Opened(h), fs)
  {
    assert ([h] + fs)[1..] == fs;
    hide Opened, Size, HeaderCrc;
  }

  /** A header and the frames behind it, whatever was collected before: as soon as
      the announced size is reached, exactly the bytes of the first frames that
      reach it are judged, and they are accepted if their CRC is the announced one. */
  lemma StreamJudged(s: Stream, h: Frame, size: nat, crc: bv16, fs: seq<Frame>)
    requires |h.data| == 6 || |h.data| == 7
    requires size < 0x8000_0000 && Spells(h.data, size) && SpellsCrc(h.data, crc) && NoHeader(fs)
    ensures var all, n := Payload(fs), (size + 7) / 8 * 8;
            if all == [] || |all| < size then
              Verdicts(s, [h] + fs) == [] && StreamAfter(s, [h] + fs) == Collecting(size, crc, all)
            else
              && n <= |all| && StreamAfter(s, [h] + fs) == Idle
              && Verdicts(s, [h] + fs)
                 == [if Crc(0xFFFF, all[..n]) == crc then Accepted(all[..n]) else Rejected(all[..n])]
  {
    assert IsHeader(h) && Needed(size) == (size + 7) / 8 * 8;
    hide Payload, Verdicts, StreamAfter, NoHeader, Crc, Spells, SpellsCrc, Opened, Needed, Judge, IsHeader;
    HeaderOpens(h, size, crc);
    StreamFirst(s, h, fs);
    JudgedFrom(size, crc, fs);
  }

  lemma JudgedFrom(size: nat, crc: bv16, fs: seq<Frame>)
    requires NoHeader(fs)
    ensures var all, s := Payload(fs), Collecting(size, crc, []);
            if all == [] || |all| < size then
              Verdicts(s, fs) == [] && StreamAfter(s, fs) == Collecting(size, crc, all)
            else
              && Needed(size) <= |all| && StreamAfter(s, fs) == Idle
              && var bytes := all[..Needed(size)];
                 Verdicts(s, fs) == [if Crc(0xFFFF, bytes) == crc then Accepted(bytes) else Rejected(bytes)]
  {
    hide Payload, Verdicts, StreamAfter, NoHeader, Crc, Needed;
    assert [] + Payload(fs) == Payload(fs);
    Reassembled(size, crc, [], fs);
  }

  /** Byte j of data frame k is byte 8 k + j of what is judged. */
  lemma {:induction false} PayloadAt(fs: seq<Frame>, k: nat, j: nat)
    requires forall i :: 0 <= i < |fs| ==> |fs[i].data| == 8 && !IsTrigger(fs[i])
    requires k < |fs| && j < 8
    ensures |Payload(fs)| == 8 * |fs| && Payload(fs)[8 * k + j] == fs[k].data[j]
    decreases |fs|
  {
    hide IsTrigger;
    PayloadStep(fs);
    if k > 0 {
      PayloadAt(fs[1..], k - 1, j);
    } else if |fs| > 1 {
      PayloadAt(fs[1..], 0, j);
    }
  }

  /** The identifiers left out of the data are those with 0x4347 in bits 8 to 24. */
  lemma TriggerIs(f: Frame)
    ensures IsTrigger(f) <==> (f.id >> 8) & 0x1_FFFF == 0x4347
  {
  }
}
