/** comp_nmra_multi_func: from a locomotive's record to its two pool buffers. */
module DccLoco {
  import opened BitBuffer
  import opened Bits
  import opened DccEncoder
  import opened DccPulse
  import opened DccStream
  import opened Locos
  import opened Options

  /** The two buffers of a pool entry. */
  datatype Entry = Entry(packet: seq<bv8>, fx_packet: seq<bv8>)

  /** A record after the encoder's corrections. */
  function OrderOf(r: Record): Order {
    Order(r.id, r.protocolversion, Heading(r) == 1, SpeedCode(r.speed, r.emergency), r.n_fs, r.funcs, r.n_func)
  }

  predicate Sendable(o: Order) {
    IsAddress(o.address, o.mode) && o.speed <= o.n_fs + 1 && o.speed <= 127
  }

  // ---------- lengths ----------

  lemma AppendLength(ps: seq<seq<Byte>>, p: seq<Byte>, n: nat, k: nat)
    requires AllPackets(ps) && ps != [] && p != [] && AllBytes(p) && |p| <= k && |Train(ps)| <= n
    ensures |Train(ps + [p])| <= n + WAIT + 9 * k + 25
  {
    TrainAppend(ps, p);
    PacketLength(p);
  }

  /** A stream begins with its preamble. */
  lemma {:induction false} TrainStart(ps: seq<seq<Byte>>)
    requires AllPackets(ps) && ps != []
    ensures |Train(ps)| >= PREAMBLE && forall k :: 0 <= k < PREAMBLE ==> Train(ps)[k]
  {
    if |ps| == 1 {
      OnesAre(PREAMBLE);
    } else {
      TrainStart(ps[..|ps| - 1]);
    }
  }

  lemma {:induction false} OnesAre(n: nat)
    ensures forall k :: 0 <= k < n ==> Ones(n)[k]
  {
    if n > 0 { OnesAre(n - 1); }
  }

  /** Between two packets of a stream there are 50 ones: the 5 ms that have to pass
      between two packets for one decoder. */
  lemma GapIs(ps: seq<seq<Byte>>, p: seq<Byte>)
    requires AllPackets(ps) && ps != [] && p != [] && AllBytes(p)
    ensures AllPackets(ps + [p])
    ensures var t, n := Train(ps + [p]), |Train(ps)|;
            && |t| > n + 50 && t[..n] == Train(ps)
            && (forall k :: n <= k < n + 50 ==> t[k]) && !t[n + 50]
  {
    hide Train, Packet;
    TrainAppend(ps, p);
    hide AllPackets, AllBytes, Ones;
    PacketStarts(p);
    OnesAre(35);
    AllOnes(Train(ps), Ones(35), Packet(p));
  }

  lemma PacketStarts(p: seq<Byte>)
    requires p != [] && AllBytes(p)
    ensures var s := Packet(p); |s| > 15 && (forall k :: 0 <= k < 15 ==> s[k]) && !s[15]
  {
    hide Ones, Frame, Checked;
    OnesAre(15);
    FrameStarts(p);
  }

  lemma FrameStarts(p: seq<Byte>)
    requires AllBytes(p) && p != []
    ensures Frame(Checked(p)) != [] && !Frame(Checked(p))[0]
  {
    hide XorAll;
  }

  lemma AllOnes(s: seq<bool>, a: seq<bool>, b: seq<bool>)
    requires |a| == 35 && forall k :: 0 <= k < 35 ==> a[k]
    requires |b| > 15 && (forall k :: 0 <= k < 15 ==> b[k]) && !b[15]
    ensures var t, n := s + a + b, |s|;
            && |t| > n + 50 && t[..n] == s && (forall k :: n <= k < n + 50 ==> t[k]) && !t[n + 50]
  {
    var t, n := s + a + b, |s|;
    forall k | n <= k < n + 50 ensures t[k] {
      if k < n + 35 { assert t[k] == a[k - n]; } else { assert t[k] == b[k - n - 35]; }
    }
  }

  lemma StartLength(p: seq<Byte>, k: nat)
    requires p != [] && AllBytes(p) && |p| <= k
    ensures |Train([p])| <= 9 * k + 25
  {
    TrainOne(p);
    PacketLength(p);
  }

  /** No stream has more than 244 bits, so none is refused for its length. */
  lemma StreamLengths(o: Order)
    ensures |Train(FirstPackets(o))| <= 244 && |Train(SecondPackets(o))| <= 244
  {
    hide Train, AdrBytes, SpeedBytes, GroupOne, GroupTwo, Expansion, Packet;
    var five, thirteen := ToAddress(o, [GroupTwo(o.func, true)]), ToAddress(o, Expansion(o.func, false));
    StartLength(SpeedPacket(o), 4);
    AppendLength([SpeedPacket(o)], five, 61, 3);
    AppendLength([SpeedPacket(o)] + [five], thirteen, 148, 4);
    var nine, more := ToAddress(o, [GroupTwo(o.func, false)]), ToAddress(o, Expansion(o.func, true));
    StartLength(ToAddress(o, [GroupOne(o.func)]), 3);
    AppendLength([ToAddress(o, [GroupOne(o.func)])], nine, 52, 3);
    AppendLength([ToAddress(o, [GroupOne(o.func)])] + [nine], more, 139, 4);
    var first, fn := FirstPackets(o), FunctionPackets(o);
    assert first == [SpeedPacket(o)] || first == [SpeedPacket(o)] + [five] || first == [SpeedPacket(o)] + [five] + [thirteen];
    var g := ToAddress(o, [GroupOne(o.func)]);
    assert fn == [g] || fn == [g] + [nine] || fn == [g] + [nine] + [more];
  }

  // ---------- the encoder ----------

  method SpeedStream(o: Order, addrstream: seq<bool>, addrerrbyte: Byte) returns (bitstream: seq<bool>)
    requires Sendable(o)
    requires addrstream == AdrStream(AdrBytes(o.address, o.mode))
    requires addrerrbyte == XorAll(AdrBytes(o.address, o.mode))
    ensures bitstream == Packet(SpeedPacket(o))
  {
    hide Packet, AdrBytes, AdrStream, BitsOf, Xor8, XorAll, Bit;
    ghost var adr := AdrBytes(o.address, o.mode);
    var direction := if o.forward then 1 else 0;
    var spdrbyte, spdrbyte2 := Zero(), Zero();
    if o.speed < 2 || o.n_fs < 15 {
      spdrbyte := CalcBaselineSpeedByte(direction, o.speed, o.func);
    } else if o.n_fs > 29 {
      spdrbyte, spdrbyte2 := Calc128SpstAdvOpBytes(direction, o.speed);
    } else {
      spdrbyte := Calc28SpstSpeedByte(direction, o.speed);
    }
    var errdbyte := XorTwoBytes(addrerrbyte, spdrbyte);
    bitstream := addrstream + spdrbyte + [false];
    if o.n_fs > 29 && o.speed > 1 {
      bitstream := bitstream + spdrbyte2 + [false];
      errdbyte := XorTwoBytes(errdbyte, spdrbyte2);
      TwoInstructions(adr, spdrbyte, spdrbyte2);
    } else {
      OneInstruction(adr, spdrbyte);
    }
    bitstream := bitstream + errdbyte + [true];
  }

  /** Takes the record's flags and makes its pool entry, unless the record is not one
      this encoder can send. Both immediate transmissions send the first buffer. */
  method CompNmraMultiFunc(glp: Loco) returns (r: Option<Entry>, sent: seq<seq<bv8>>)
    requires glp.Valid() && (glp.protocolversion == 1 || glp.protocolversion == 2)
    modifies glp`speedchange
    ensures glp.speedchange == old(glp.speedchange) & 0xF8
    ensures var o := OrderOf(old(glp.AsRecord()));
            if Sendable(o) && 0 <= Heading(old(glp.AsRecord())) <= 1 then
              && r.Some? && Carries(r.value.packet, Train(FirstPackets(o)))
              && Carries(r.value.fx_packet, Train(SecondPackets(o)))
              && sent == if HasFunctions(o) then [r.value.packet, r.value.packet] else [r.value.packet]
            else r == None && sent == []
  {
    hide Train, FirstPackets, SecondPackets, FunctionPackets, AdrBytes, AdrStream, XorAll, Packet, Carries, SpeedPacket;
    var direction, speed := glp.direction, glp.speed;
    var emergency := glp.TakeFlags();
    if emergency {
      speed := 1;
      direction := glp.cacheddirection;
    } else if speed > 0 {
      speed := speed + 1;
    }
    if speed > 127 { speed := 127; }
    var address, mode, nspeed, nfuncs := glp.id, glp.protocolversion, glp.n_fs, glp.n_func;
    if address < 1 || address > 10239 || direction < 0 || direction > 1 || speed > nspeed + 1 ||
       (address > 127 && mode == 1) {
      return None, [];
    }
    var o := Order(address, mode, direction == 1, speed, nspeed, glp.funcs, nfuncs);
    assert o == OrderOf(old(glp.AsRecord()));
    r := None;
    sent := [];
    var addrstream, addrerrbyte := CalcAddressStream(address, mode);
    var bitstream := SpeedStream(o, addrstream, addrerrbyte);
    StreamLengths(o);
    var packetstream := new bv8[PKTSIZE];
    var packetstream2 := packetstream;
    var j, jj;
    if nfuncs > 0 && nspeed > 14 {
      var bitstream2;
      bitstream, bitstream2 := CalcFunctionStream(bitstream, o, addrerrbyte, addrstream, o.func, nfuncs);
      packetstream2 := new bv8[PKTSIZE];
      j := TranslateBitstream2Packetstream(bitstream, packetstream);
      jj := TranslateBitstream2Packetstream(bitstream2, packetstream2);
    } else {
      OnlySpeed(o);
      j := TranslateBitstream2Packetstream(bitstream, packetstream);
      jj := j;
    }
    if j > 0 && jj > 0 {
      r := Some(Entry(packetstream[..j], packetstream2[..jj]));
      sent := [packetstream[..j]];
      if nfuncs > 0 && nspeed > 14 {
        sent := sent + [packetstream[..j]];
      }
    }
  }

  lemma OnlySpeed(o: Order)
    requires !HasFunctions(o)
    ensures Train(FirstPackets(o)) == Packet(SpeedPacket(o)) && SecondPackets(o) == FirstPackets(o)
  {
    TrainOne(SpeedPacket(o));
    assert FirstPackets(o) == [SpeedPacket(o)];
  }
}
