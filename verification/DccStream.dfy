/** DCC bit streams as S-9.2 section A defines them: packets of bytes separated by
    0 bits between a preamble and a closing 1, and the receiver that finds them. */
module DccStream {
  import opened Sequences

  type Byte = seq<bool>        // eight bits, most significant first

  predicate AllBytes(bytes: seq<Byte>) {
    forall k :: 0 <= k < |bytes| ==> |bytes[k]| == 8
  }

  function Ones(n: nat): (s: seq<bool>)
    ensures |s| == n
  {
    if n == 0 then [] else [true] + Ones(n - 1)
  }

  function Xor8(a: Byte, b: Byte): (x: Byte)
    requires |a| == |b| == 8
    ensures |x| == 8
  {
    seq(8, i requires 0 <= i < 8 => a[i] != b[i])
  }

  function Zero(): Byte { [false, false, false, false, false, false, false, false] }

  /** The error detection byte: the exclusive or of all bytes. */
  function XorAll(bytes: seq<Byte>): (x: Byte)
    requires AllBytes(bytes)
    ensures |x| == 8
  {
    if bytes == [] then Zero()
    else Xor8(XorAll(bytes[..|bytes| - 1]), bytes[|bytes| - 1])
  }

  function Checked(bytes: seq<Byte>): (r: seq<Byte>)
    requires AllBytes(bytes)
    ensures AllBytes(r)
  {
    bytes + [XorAll(bytes)]
  }

  /** Each byte behind its separating 0. */
  function Frame(bytes: seq<Byte>): seq<bool> {
    if bytes == [] then [] else [false] + bytes[0] + Frame(bytes[1..])
  }

  const PREAMBLE := 15

  /** Between two packets for one decoder: 35 more ones. */
  const WAIT := 35

  function Packet(bytes: seq<Byte>): seq<bool>
    requires AllBytes(bytes)
  {
    Ones(PREAMBLE) + Frame(Checked(bytes)) + [true]
  }

  predicate AllPackets(ps: seq<seq<Byte>>) {
    forall k :: 0 <= k < |ps| ==> ps[k] != [] && AllBytes(ps[k])
  }

  /** Packets one after the other, apart by the waiting time. */
  function Train(ps: seq<seq<Byte>>): seq<bool>
    requires AllPackets(ps)
  {
    if ps == [] then []
    else if |ps| == 1 then Packet(ps[0])
    else Train(ps[..|ps| - 1]) + Ones(WAIT) + Packet(ps[|ps| - 1])
  }

  function AllChecked(ps: seq<seq<Byte>>): (r: seq<seq<Byte>>)
    requires AllPackets(ps)
    ensures |r| == |ps| && forall k :: 0 <= k < |ps| ==> r[k] == Checked(ps[k])
  {
    if ps == [] then [] else AllChecked(ps[..|ps| - 1]) + [Checked(ps[|ps| - 1])]
  }

  // ---------- the receiver ----------

  /** Counting preamble ones, or reading a byte behind the bytes already complete. */
  datatype Rx = Hunt(ones: nat) | Read(done: seq<Byte>, cur: Byte)

  /** The packets in a bit stream, error byte included, for a receiver that takes
      `need` ones for a preamble (S-9.2: no packet after fewer than 10, every
      packet after 12 or more). */
  function Receive(need: nat, rx: Rx, s: seq<bool>): seq<seq<Byte>>
    decreases |s|
  {
    if s == [] then []
    else
      match rx
      case Hunt(n) =>
        if s[0] then Receive(need, Hunt(n + 1), s[1..])
        else if n >= need then Receive(need, Read([], []), s[1..])
        else Receive(need, Hunt(0), s[1..])
      case Read(done, cur) =>
        if |cur| < 8 then Receive(need, Read(done, cur + [s[0]]), s[1..])
        else if s[0] then [done + [cur]] + Receive(need, Hunt(1), s[1..])
        else Receive(need, Read(done + [cur], []), s[1..])
  }

  lemma ReceiveBit(need: nat, rx: Rx, b: bool, rest: seq<bool>)
    ensures Receive(need, rx, [b] + rest) ==
            match rx
            case Hunt(n) =>
              if b then Receive(need, Hunt(n + 1), rest)
              else if n >= need then Receive(need, Read([], []), rest)
              else Receive(need, Hunt(0), rest)
            case Read(done, cur) =>
              if |cur| < 8 then Receive(need, Read(done, cur + [b]), rest)
              else if b then [done + [cur]] + Receive(need, Hunt(1), rest)
              else Receive(need, Read(done + [cur], []), rest)
  {
    assert ([b] + rest)[1..] == rest;
  }

  lemma {:induction false} ReceiveOnes(need: nat, n: nat, k: nat, rest: seq<bool>)
    ensures Receive(need, Hunt(n), Ones(k) + rest) == Receive(need, Hunt(n + k), rest)
    decreases k
  {
    hide Receive;
    if k == 0 {
      assert Ones(0) + rest == rest;
    } else {
      Assoc([true], Ones(k - 1), rest);
      ReceiveBit(need, Hunt(n), true, Ones(k - 1) + rest);
      ReceiveOnes(need, n + 1, k - 1, rest);
    }
  }

  lemma {:induction false} ReceiveByte(need: nat, done: seq<Byte>, cur: Byte, b: Byte, rest: seq<bool>)
    requires |cur| + |b| == 8
    ensures Receive(need, Read(done, cur), b + rest) == Receive(need, Read(done, cur + b), rest)
    decreases |b|
  {
    hide Receive;
    if b == [] {
      assert b + rest == rest && cur + b == cur;
    } else {
      assert b + rest == [b[0]] + (b[1..] + rest);
      ReceiveBit(need, Read(done, cur), b[0], b[1..] + rest);
      ReceiveByte(need, done, cur + [b[0]], b[1..], rest);
      assert (cur + [b[0]]) + b[1..] == cur + b;
    }
  }

  lemma {:induction false} ReceiveFrame(need: nat, done: seq<Byte>, b: Byte, bytes: seq<Byte>, rest: seq<bool>)
    requires |b| == 8 && AllBytes(bytes)
    ensures Receive(need, Read(done, b), Frame(bytes) + ([true] + rest))
         == [done + [b] + bytes] + Receive(need, Hunt(1), rest)
    decreases |bytes|
  {
    hide Receive;
    if bytes == [] {
      assert Frame(bytes) + ([true] + rest) == [true] + rest;
      ReceiveBit(need, Read(done, b), true, rest);
      assert done + [b] + bytes == done + [b];
    } else {
      var c, more := bytes[0], Frame(bytes[1..]) + ([true] + rest);
      assert Frame(bytes) + ([true] + rest) == [false] + (c + more);
      ReceiveBit(need, Read(done, b), false, c + more);
      ReceiveByte(need, done + [b], [], c, more);
      assert [] + c == c;
      ReceiveFrame(need, done + [b], c, bytes[1..], rest);
      assert done + [b] + [c] + bytes[1..] == done + [b] + bytes;
    }
  }

  /** One packet: its bytes come out whatever went before and comes after it. */
  lemma ReceivePacket(need: nat, n: nat, bytes: seq<Byte>, rest: seq<bool>)
    requires need <= PREAMBLE && bytes != [] && AllBytes(bytes)
    ensures Receive(need, Hunt(n), Packet(bytes) + rest) == [Checked(bytes)] + Receive(need, Hunt(1), rest)
  {
    hide Receive, Ones, XorAll;
    var all := Checked(bytes);
    var tail := Frame(all[1..]) + ([true] + rest);
    FrameFirst(all, rest);
    assert Packet(bytes) + rest == Ones(PREAMBLE) + ([false] + (all[0] + tail));
    ReceiveOnes(need, n, PREAMBLE, [false] + (all[0] + tail));
    ReceiveBit(need, Hunt(n + PREAMBLE), false, all[0] + tail);
    ReceiveByte(need, [], [], all[0], tail);
    assert [] + all[0] == all[0];
    ReceiveFrame(need, [], all[0], all[1..], rest);
    assert [] + [all[0]] + all[1..] == all;
  }

  lemma FrameFirst(all: seq<Byte>, rest: seq<bool>)
    requires all != []
    ensures Frame(all) + [true] + rest == [false] + (all[0] + (Frame(all[1..]) + ([true] + rest)))
  {
  }

  /** A stream of packets is received as exactly these packets, in order, behind
      any number of ones and before any number of ones. */
  lemma {:induction false} TrainReceived(need: nat, n: nat, ps: seq<seq<Byte>>, k: nat)
    requires need <= 12 && AllPackets(ps)
    ensures Receive(need, Hunt(n), Train(ps) + Ones(k)) == AllChecked(ps)
  {
    TrainThen(need, n, ps, Ones(k));
    hide Receive, Train, AllChecked, Ones;
    var m := if ps == [] then n else 1;
    assert Ones(k) + [] == Ones(k);
    ReceiveOnes(need, m, k, []);
    Silence(need, m + k);
    assert AllChecked(ps) + [] == AllChecked(ps);
  }

  lemma Silence(need: nat, n: nat)
    ensures Receive(need, Hunt(n), []) == []
  {
  }

  lemma {:induction false} TrainThen(need: nat, n: nat, ps: seq<seq<Byte>>, rest: seq<bool>)
    requires need <= 12 && AllPackets(ps)
    ensures Receive(need, Hunt(n), Train(ps) + rest)
         == AllChecked(ps) + Receive(need, Hunt(if ps == [] then n else 1), rest)
    decreases |ps|
  {
    hide Receive, Packet, Checked, Ones;
    if ps == [] {
      assert Train(ps) + rest == rest;
    } else {
      var p, before := ps[|ps| - 1], ps[..|ps| - 1];
      ReceivePacket(need, 1 + WAIT, p, rest);
      if |ps| == 1 {
        ReceivePacket(need, n, p, rest);
        assert AllChecked(before) == [] && [] + [Checked(p)] == [Checked(p)];
      } else {
        ThreeMore(Train(before), Ones(WAIT), Packet(p), rest);
        TrainThen(need, n, before, Ones(WAIT) + (Packet(p) + rest));
        ReceiveOnes(need, 1, WAIT, Packet(p) + rest);
        Assoc(AllChecked(before), [Checked(p)], Receive(need, Hunt(1), rest));
      }
    }
  }

  lemma ThreeMore<T>(a: seq<T>, b: seq<T>, c: seq<T>, d: seq<T>)
    ensures a + b + c + d == a + (b + (c + d))
  {
  }

  // ---------- the error byte ----------

  lemma XorSelf(a: Byte)
    requires |a| == 8
    ensures Xor8(a, a) == Zero()
  {
  }

  /** The exclusive or over a whole packet is zero. */
  lemma CheckedIsZero(bytes: seq<Byte>)
    requires AllBytes(bytes)
    ensures XorAll(Checked(bytes)) == Zero()
  {
    var all := Checked(bytes);
    assert all[..|all| - 1] == bytes;
    XorSelf(XorAll(bytes));
  }

  /** The error byte of one and of two bytes, as the encoder starts it. */
  lemma XorFirst(a: Byte)
    requires |a| == 8
    ensures XorAll([a]) == a
  {
    assert [a][..0] == [];
    assert Xor8(Zero(), a) == a;
  }

  lemma XorNext(bytes: seq<Byte>, b: Byte)
    requires AllBytes(bytes) && |b| == 8
    ensures XorAll(bytes + [b]) == Xor8(XorAll(bytes), b)
  {
    assert (bytes + [b])[..|bytes|] == bytes;
  }

  // ---------- lengths ----------

  lemma {:induction false} FrameLength(bytes: seq<Byte>)
    requires AllBytes(bytes)
    ensures |Frame(bytes)| == 9 * |bytes|
  {
    if bytes != [] { FrameLength(bytes[1..]); }
  }

  lemma PacketLength(bytes: seq<Byte>)
    requires AllBytes(bytes)
    ensures |Packet(bytes)| == 9 * |bytes| + 25
  {
    FrameLength(Checked(bytes));
  }

  lemma {:induction false} FrameConcat(a: seq<Byte>, b: seq<Byte>)
    ensures Frame(a + b) == Frame(a) + Frame(b)
    decreases |a|
  {
    if a == [] {
      assert a + b == b;
    } else {
      assert (a + b)[1..] == a[1..] + b;
      FrameConcat(a[1..], b);
    }
  }
}
