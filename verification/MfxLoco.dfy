/** What an mfx decoder does with the packets of a locomotive command, and what it
    then has of the locomotive's record. */
module MfxLoco {
  import opened Bits
  import opened Locos
  import opened MfxCrc
  import opened MfxPacket
  import opened MfxSender

  const FUNCTIONS := 32

  datatype Decoder = Decoder(addr: nat, backward: bool, motion: Motion, f: seq<bool>)

  /** A decoder obeys drive and function commands to its own address. */
  function Obey(d: Decoder, packet: seq<bool>): (e: Decoder)
    ensures e.addr == d.addr && |e.f| == |d.f|
  {
    match ReadPacket(packet)
    case Some(Drive(a, back, speed, w, funcs)) =>
      if a != d.addr then d
      else Decoder(a, back, MotionOf(speed),
                   seq(|d.f|, i requires 0 <= i < |d.f| => if i < w then Bit(funcs, i) else d.f[i]))
    case Some(Function(a, k, on)) => if a != d.addr || k >= |d.f| then d else d.(f := d.f[k := on])
    case _ => d
  }

  function ObeyAll(d: Decoder, packets: seq<seq<bool>>): Decoder
    decreases |packets|
  {
    if packets == [] then d else ObeyAll(Obey(d, packets[0]), packets[1..])
  }

  /** Does the command bring function i of the record to the decoder? */
  predicate Brings(r: Record, changed: nat, i: nat) {
    i < WidthOf(r.n_func) || (r.n_func > 16 && 16 <= i && Bit(changed, i))
  }

  function Backward(r: Record): bool { Heading(r) == -1 || Heading(r) % 2 == 0 }

  /** The decoder with motion m and those functions that the command brings. */
  function AsRecorded(d: Decoder, r: Record, changed: nat, m: Motion): Decoder {
    Decoder(d.addr, Backward(r), m,
            seq(|d.f|, i requires 0 <= i < |d.f| => if Brings(r, changed, i) then Bit(r.funcs, i) else d.f[i]))
  }

  lemma {:induction false} LowBit(v: nat, n: nat, i: nat)
    requires i < n
    ensures Bit(Low(v, n), i) == Bit(v, i)
  {
    LowBits(v, n);
    BitsOfAt(Low(v, n), n, n - 1 - i);
    BitsOfAt(v, n, n - 1 - i);
  }

  /** The drive packet sets direction, motion and the lowest functions. */
  lemma DriveObeyed(d: Decoder, r: Record)
    requires r.id < 16384 && d.addr == r.id && |d.f| == FUNCTIONS
    ensures Obey(d, Closed(CommandBits(DriveOf(r))))
         == AsRecorded(d, r, 0, MotionOf(SpeedCode(r.speed, r.emergency)))
  {
    LocoReadBack(r);
    hide ReadPacket, Closed, CommandBits, Low, Bit;
    var w := WidthOf(r.n_func);
    var e := Obey(d, Closed(CommandBits(DriveOf(r))));
    forall i: nat | i < FUNCTIONS
      ensures e.f[i] == if Brings(r, 0, i) then Bit(r.funcs, i) else d.f[i]
    {
      NoBits(i);
      if i < w { LowBit(r.funcs, w, i); }
    }
    assert e.f == AsRecorded(d, r, 0, e.motion).f;
  }

  lemma {:induction false} NoBits(i: nat)
    ensures !Bit(0, i)
  {
    ShiftZero(i);
  }

  lemma FunctionObeyed(d: Decoder, id: nat, k: nat, on: bool)
    requires id < 16384 && d.addr == id && k < 32 && |d.f| == FUNCTIONS
    ensures Obey(d, Closed(CommandBits(Function(id, k, on)))) == d.(f := d.f[k := on])
  {
    PacketReadBack(Function(id, k, on));
    hide ReadPacket, Closed, CommandBits;
  }

  /** The changed functions from i on as in funcs. */
  function WithFx(f: seq<bool>, funcs: nat, changed: nat, i: nat): (g: seq<bool>)
    ensures |g| == |f|
  {
    seq(|f|, k requires 0 <= k < |f| => if k >= i && Bit(changed, k) then Bit(funcs, k) else f[k])
  }

  lemma NextFx(f: seq<bool>, funcs: nat, changed: nat, i: nat)
    requires i < |f|
    ensures WithFx(f, funcs, changed, i)
         == WithFx(if Bit(changed, i) then f[i := Bit(funcs, i)] else f, funcs, changed, i + 1)
    ensures WithFx(f, funcs, changed, |f|) == f
  {
    hide Bit;
  }

  /** The function packets set exactly the changed functions from i on. */
  lemma {:induction false} FxObeyed(d: Decoder, id: nat, funcs: nat, changed: nat, i: nat)
    requires id < 16384 && d.addr == id && |d.f| == FUNCTIONS && 16 <= i <= 32
    ensures ObeyAll(d, FxPackets(id, funcs, changed, i)) == d.(f := WithFx(d.f, funcs, changed, i))
    decreases 32 - i
  {
    hide Closed, CommandBits, Bit, FxPackets, Obey, WithFx;
    FxStep(id, funcs, changed, i);
    if i == 32 {
      NextFx(d.f, funcs, changed, 0);
    } else {
      NextFx(d.f, funcs, changed, i);
      var rest := FxPackets(id, funcs, changed, i + 1);
      if Bit(changed, i) {
        FunctionObeyed(d, id, i, Bit(funcs, i));
        var p := Closed(CommandBits(Function(id, i, Bit(funcs, i))));
        assert ([p] + rest)[1..] == rest;
        FxObeyed(d.(f := d.f[i := Bit(funcs, i)]), id, funcs, changed, i + 1);
      } else {
        assert [] + rest == rest;
        FxObeyed(d, id, funcs, changed, i + 1);
      }
    }
  }

  /** After a locomotive command its decoder has the record's direction, the lowest
      4, 8 or 16 functions, every changed one from F16 on, and its other functions
      unchanged; and it has the speed the record asks for if and only if that is an
      emergency stop or no step above 126. */
  lemma RecordObeyed(d: Decoder, r: Record, changed: nat)
    requires r.id < 16384 && d.addr == r.id && |d.f| == FUNCTIONS
    ensures var e := ObeyAll(d, PacketsOf(r, changed));
            && e == AsRecorded(d, r, changed, MotionOf(SpeedCode(r.speed, r.emergency)))
            && (e == AsRecorded(d, r, changed, MotionWanted(r)) <==> r.emergency || r.speed <= 126)
  {
    var m := MotionOf(SpeedCode(r.speed, r.emergency));
    var drive := Closed(CommandBits(DriveOf(r)));
    var extra := if r.n_func > 16 then FxPackets(r.id, r.funcs, changed, 16) else [];
    SpeedCodeMeans(r);
    DriveObeyed(d, r);
    hide Closed, CommandBits, FxPackets, Obey, Bit, MotionOf;
    assert ([drive] + extra)[1..] == extra;
    var e := AsRecorded(d, r, 0, m);
    assert ObeyAll(d, PacketsOf(r, changed)) == ObeyAll(e, extra);
    if r.n_func > 16 {
      FxObeyed(e, r.id, r.funcs, changed, 16);
    }
    Joined(d, r, changed, m);
  }

  lemma Joined(d: Decoder, r: Record, changed: nat, m: Motion)
    requires |d.f| == FUNCTIONS
    ensures var e := AsRecorded(d, r, 0, m);
            AsRecorded(d, r, changed, m) ==
            if r.n_func > 16 then e.(f := WithFx(e.f, r.funcs, changed, 16)) else e
  {
    forall k: nat ensures !Bit(0, k) { NoBits(k); }
    hide Bit;
    var e, g := AsRecorded(d, r, 0, m), AsRecorded(d, r, changed, m);
    if r.n_func > 16 {
      assert g.f == WithFx(e.f, r.funcs, changed, 16);
    } else {
      assert g.f == e.f;
    }
  }

  /** A decoder that had every function as recorded before, except for the changed
      ones, has all 32 as recorded afterwards. */
  lemma KeptInStep(d: Decoder, r: Record, changed: nat)
    requires r.id < 16384 && d.addr == r.id && |d.f| == FUNCTIONS && r.n_func > 16
    requires forall i :: 16 <= i < FUNCTIONS && !Bit(changed, i) ==> d.f[i] == Bit(r.funcs, i)
    ensures var e := ObeyAll(d, PacketsOf(r, changed));
            |e.f| == FUNCTIONS && forall i :: 0 <= i < FUNCTIONS ==> e.f[i] == Bit(r.funcs, i)
  {
    RecordObeyed(d, r, changed);
    hide ObeyAll, PacketsOf, Bit;
  }

  /** An emergency stop keeps the direction sent last; otherwise direction and
      speed are those of the record. Even directions are backward, and so is that of
      a terminated decoder. */
  lemma MovesAsRecorded(d: Decoder, r: Record, changed: nat)
    requires r.id < 16384 && d.addr == r.id && |d.f| == 32
    ensures var e := ObeyAll(d, PacketsOf(r, changed));
            && (r.emergency ==> e.motion == EmergencyStop
                                && e.backward == (r.cacheddirection == -1 || r.cacheddirection % 2 == 0))
            && (!r.emergency ==> e.backward == (r.direction == -1 || r.direction % 2 == 0))
            && (!r.emergency && r.speed == 0 ==> e.motion == Stop)
            && (!r.emergency && 0 < r.speed ==> e.motion == Step(if r.speed <= 126 then r.speed else 126))
  {
    RecordObeyed(d, r, changed);
    hide ObeyAll, PacketsOf, Bit;
  }

  /** Each of the first 16 functions that the record has is on or off as recorded;
      of the others below F16 those that fill up 4, 8 or 16 are too. From F16 on the
      changed ones are, if there are so many, and the rest keep their state. */
  lemma FunctionsAsRecorded(d: Decoder, r: Record, changed: nat, i: nat)
    requires r.id < 16384 && d.addr == r.id && |d.f| == 32 && i < 32
    ensures var e := ObeyAll(d, PacketsOf(r, changed));
            && |e.f| == 32
            && (i < 16 && i < r.n_func ==> e.f[i] == Bit(r.funcs, i))
            && (i < 16 ==> e.f[i] == if i < 4 || (i < 8 && r.n_func > 4) || r.n_func > 8 then Bit(r.funcs, i)
                                     else d.f[i])
            && (i >= 16 && r.n_func > 16 ==> e.f[i] == if Bit(changed, i) then Bit(r.funcs, i) else d.f[i])
            && (i >= 16 && r.n_func <= 16 ==> e.f[i] == d.f[i])
  {
    RecordObeyed(d, r, changed);
    hide ObeyAll, PacketsOf, Bit;
  }
}
