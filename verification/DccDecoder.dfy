/** What a DCC decoder does with the packets it receives (S-9.2 and S-9.2.1), and
    the proof that it ends up with exactly what the locomotive's record says. */
module DccDecoder {
  import opened Bits
  import opened DccEncoder
  import opened DccLoco
  import opened DccPulse
  import opened DccStream
  import opened Locos
  import opened Options
  import opened Sequences

  // ---------- the decoder ----------

  datatype Address = Short(a: nat) | Long(a: nat)

  const FUNCTIONS := 29

  /** A decoder set to an address and to 14 or to 28 and 128 steps. */
  datatype Decoder = Decoder(adr: Address, steps14: bool, forward: bool, motion: Motion, f: seq<bool>)

  datatype Addressed = Addressed(adr: Address, rest: seq<Byte>)

  /** The address in front of a packet: 0AAAAAAA, or 11AAAAAA AAAAAAAA up to 231. */
  function AddressIn(p: seq<Byte>): Option<Addressed>
    requires AllBytes(p)
  {
    if |p| >= 1 && !p[0][0] then
      Some(Addressed(Short(ValueOf(p[0][1..])), p[1..]))
    else if |p| >= 2 && p[0][1] && ValueOf(p[0][2..]) <= 39 then
      Some(Addressed(Long(256 * ValueOf(p[0][2..]) + ValueOf(p[1])), p[2..]))
    else None
  }

  /** 28 steps: five bits, the lowest one in front; two codes each for the stops. */
  function Motion28(low: bool, s: seq<bool>): Motion {
    var c := 2 * ValueOf(s) + if low then 1 else 0;
    if c < 2 then Stop else if c < 4 then EmergencyStop else Step(c - 3)
  }

  /** Functions from base on take the bits, which come highest first. */
  function SetFs(f: seq<bool>, base: nat, bits: seq<bool>): (r: seq<bool>)
    ensures |r| == |f|
  {
    seq(|f|, i requires 0 <= i < |f| => if base <= i < base + |bits| then bits[|bits| - 1 - (i - base)] else f[i])
  }

  function Execute(d: Decoder, instr: seq<Byte>): Decoder
    requires AllBytes(instr)
  {
    if instr == [] then d
    else
      var i := instr[0];
      if !i[0] && i[1] then
        if d.steps14 then
          d.(forward := i[2], f := SetFs(d.f, 0, [i[3]]), motion := MotionOf(ValueOf(i[4..])))
        else d.(forward := i[2], motion := Motion28(i[3], i[4..]))
      else if i == [false, false, true, true, true, true, true, true] && |instr| >= 2 then
        d.(forward := instr[1][0], motion := MotionOf(ValueOf(instr[1][1..])))
      else if i[..3] == [true, false, false] then
        d.(f := SetFs(SetFs(d.f, 0, [i[3]]), 1, i[4..]))
      else if i[..3] == [true, false, true] then
        d.(f := SetFs(d.f, if i[3] then 5 else 9, i[4..]))
      else if i[..7] == [true, true, false, true, true, true, true] && |instr| >= 2 then
        d.(f := SetFs(d.f, if i[7] then 21 else 13, instr[1]))
      else d
  }

  /** A packet counts if its bytes cancel out and it carries the own address. */
  function Obey(d: Decoder, p: seq<Byte>): Decoder
    requires AllBytes(p)
  {
    var to := AddressIn(p);
    if XorAll(p) != Zero() || to.None? || to.value.adr != d.adr || to.value.rest == [] then d
    else Execute(d, to.value.rest[..|to.value.rest| - 1])
  }

  predicate AllOfBytes(ps: seq<seq<Byte>>) {
    forall k :: 0 <= k < |ps| ==> AllBytes(ps[k])
  }

  function ObeyAll(d: Decoder, ps: seq<seq<Byte>>): Decoder
    requires AllOfBytes(ps)
  {
    if ps == [] then d else Obey(ObeyAll(d, ps[..|ps| - 1]), ps[|ps| - 1])
  }

  // ---------- one packet ----------

  function AdrOf(o: Order): Address {
    if o.mode == 1 then Short(o.address) else Long(o.address)
  }

  lemma ByteValue(v: nat, n: nat, k: nat)
    requires v < k && k == Pow2(n)
    ensures ValueOf(BitsOf(v, n)) == v
  {
    ReadBack(v, n);
    LowIs(v, n);
  }

  lemma Powers()
    ensures Pow2(4) == 16 && Pow2(6) == 64 && Pow2(7) == 128 && Pow2(8) == 256
  {
  }

  lemma LowByte(v: nat)
    ensures BitsOf(v, 8) == BitsOf(v % 256, 8)
  {
    Powers();
    hide Pow2;
    LowBits(v % 256, v / 256, 8);
  }

  /** The address bytes are read back as the address, and what follows is left. */
  lemma AddressRead(o: Order, rest: seq<Byte>)
    requires Sendable(o) && AllBytes(rest)
    ensures AddressIn(AdrBytes(o.address, o.mode) + rest) == Some(Addressed(AdrOf(o), rest))
  {
    hide BitsOf, ValueOf, Pow2;
    var adr := AdrBytes(o.address, o.mode);
    var p := adr + rest;
    Powers();
    if o.mode == 1 {
      ByteValue(o.address, 7, 128);
      assert p[0][1..] == BitsOf(o.address, 7) && p[1..] == rest;
    } else {
      ByteValue(o.address / 256, 6, 64);
      ByteValue(o.address % 256, 8, 256);
      LowByte(o.address);
      assert p[0][2..] == BitsOf(o.address / 256, 6) && p[1] == BitsOf(o.address, 8) && p[2..] == rest;
    }
  }

  /** Decoders obey packets to their address and no others. */
  lemma ObeyOwn(d: Decoder, o: Order, instr: seq<Byte>)
    requires Sendable(o) && AllBytes(instr)
    ensures Obey(d, Checked(ToAddress(o, instr))) == if d.adr == AdrOf(o) then Execute(d, instr) else d
  {
    hide AdrBytes, XorAll, Execute;
    var p := ToAddress(o, instr);
    var err := [XorAll(p)];
    CheckedIsZero(p);
    Assoc(AdrBytes(o.address, o.mode), instr, err);
    AddressRead(o, instr + err);
    assert (instr + err)[..|instr + err| - 1] == instr;
  }

  // ---------- instructions ----------

  /** Functions lo to hi - 1 as in func. */
  function WithFs(d: Decoder, func: nat, lo: nat, hi: nat): Decoder {
    d.(f := seq(|d.f|, i requires 0 <= i < |d.f| => if lo <= i < hi then Bit(func, i) else d.f[i]))
  }

  lemma {:induction false} ShrShr(x: nat, a: nat, b: nat)
    ensures Shr(Shr(x, a), b) == Shr(x, a + b)
    decreases b
  {
    if b > 0 { ShrShr(x, a, b - 1); }
  }

  lemma FieldBit(func: nat, base: nat, n: nat, k: nat)
    requires k < n
    ensures BitsOf(Shr(func, base), n)[n - 1 - k] == Bit(func, base + k)
  {
    BitsOfAt(Shr(func, base), n, n - 1 - k);
    ShrShr(func, base, k);
  }

  /** A field of function bits sets exactly its functions. */
  lemma FieldSets(d: Decoder, func: nat, base: nat, n: nat)
    ensures SetFs(d.f, base, BitsOf(Shr(func, base), n)) == WithFs(d, func, base, base + n).f
  {
    hide BitsOf, Bit, Shr;
    var s, t := SetFs(d.f, base, BitsOf(Shr(func, base), n)), WithFs(d, func, base, base + n).f;
    forall i | 0 <= i < |d.f| ensures s[i] == t[i] {
      if base <= i < base + n { FieldBit(func, base, n, i - base); }
    }
  }

  lemma OneSets(f: seq<bool>, d: Decoder, func: nat)
    requires f == d.f
    ensures SetFs(f, 0, [Bit(func, 0)]) == WithFs(d, func, 0, 1).f
  {
    hide Bit;
  }

  lemma WithJoined(d: Decoder, func: nat, lo: nat, mid: nat, hi: nat)
    requires lo <= mid <= hi
    ensures WithFs(WithFs(d, func, lo, mid), func, mid, hi) == WithFs(d, func, lo, hi)
  {
    hide Bit;
  }

  lemma GroupOneObeyed(d: Decoder, func: nat)
    ensures Execute(d, [GroupOne(func)]) == WithFs(d, func, 0, 5)
  {
    hide BitsOf, Shr, Bit, SetFs;
    var i := GroupOne(func);
    assert i[..3] == [true, false, false] && i[4..] == BitsOf(Shr(func, 1), 4);
    OneSets(d.f, d, func);
    FieldSets(WithFs(d, func, 0, 1), func, 1, 4);
    WithJoined(d, func, 0, 1, 5);
    hide WithFs;
    assert d.(f := WithFs(d, func, 0, 5).f) == WithFs(d, func, 0, 5) by { Same(d, func, 0, 5); }
  }

  lemma Same(d: Decoder, func: nat, lo: nat, hi: nat)
    ensures d.(f := WithFs(d, func, lo, hi).f) == WithFs(d, func, lo, hi)
  {
  }

  lemma GroupTwoObeyed(d: Decoder, func: nat, lower: bool)
    ensures Execute(d, [GroupTwo(func, lower)]) == if lower then WithFs(d, func, 5, 9) else WithFs(d, func, 9, 13)
  {
    hide BitsOf, Shr, Bit, SetFs, WithFs;
    var i := GroupTwo(func, lower);
    var base := if lower then 5 else 9;
    assert i[..3] == [true, false, true] && i[3] == lower && i[4..] == BitsOf(Shr(func, base), 4);
    FieldSets(d, func, base, 4);
    Same(d, func, base, base + 4);
  }

  lemma ExpansionObeyed(d: Decoder, func: nat, upper: bool)
    ensures Execute(d, Expansion(func, upper)) == if upper then WithFs(d, func, 21, 29) else WithFs(d, func, 13, 21)
  {
    hide BitsOf, Shr, Bit, SetFs, WithFs;
    var base := if upper then 21 else 13;
    var i := Expansion(func, upper)[0];
    assert i[..3] == [true, true, false] && i[..7] == [true, true, false, true, true, true, true];
    FieldSets(d, func, base, 8);
    Same(d, func, base, base + 8);
  }

  /** What a speed instruction should do: F0 travels along with 14 steps only. */
  function Driven(d: Decoder, o: Order): Decoder {
    var e := d.(forward := o.forward, motion := MotionOf(o.speed));
    if o.n_fs < 15 then WithFs(e, o.func, 0, 1) else e
  }

  /** Decoders with 29 steps do not exist, but nothing in the encoder refuses them. */
  predicate TopStepOf29(o: Order) { o.n_fs == 29 && o.speed == 30 }

  lemma BaselineObeyed(d: Decoder, o: Order)
    requires o.speed < 16 && d.steps14 == (o.n_fs < 15) && (o.n_fs < 15 || o.speed < 2)
    ensures Execute(d, [BaselineByte(o.forward, o.speed, Bit(o.func, 0))]) == Driven(d, o)
  {
    hide BitsOf, ValueOf, Pow2, Bit, SetFs, WithFs;
    var i := BaselineByte(o.forward, o.speed, Bit(o.func, 0));
    Powers();
    ByteValue(o.speed, 4, 16);
    assert i[4..] == BitsOf(o.speed, 4);
    OneSets(d.f, d, o.func);
    SameF(d, d.(forward := o.forward, motion := MotionOf(o.speed)), o.func, 0, 1);
  }

  lemma SameF(d: Decoder, e: Decoder, func: nat, lo: nat, hi: nat)
    requires d.f == e.f
    ensures WithFs(e, func, lo, hi) == e.(f := WithFs(d, func, lo, hi).f)
  {
  }

  lemma Steps28Obeyed(d: Decoder, o: Order)
    requires 2 <= o.speed <= 30 && 15 <= o.n_fs && !d.steps14
    ensures Execute(d, [Steps28Byte(o.forward, o.speed)])
         == if o.speed < 30 then Driven(d, o) else d.(forward := o.forward, motion := Stop)
  {
    hide BitsOf, ValueOf, Pow2, WithFs;
    var sum := o.speed + 2;
    Powers();
    ByteValue(sum / 2 % 16, 4, 16);
    Masked(sum / 2);
    var i := Steps28Byte(o.forward, o.speed);
    assert i[4..] == BitsOf(sum / 2, 4);
  }

  lemma Steps128Obeyed(d: Decoder, o: Order)
    requires 2 <= o.speed < 128 && 15 <= o.n_fs
    ensures Execute(d, Steps128Bytes(o.forward, o.speed)) == Driven(d, o)
  {
    hide BitsOf, ValueOf, Pow2, WithFs;
    Powers();
    ByteValue(o.speed, 7, 128);
    var r := Steps128Bytes(o.forward, o.speed);
    assert r[1][1..] == BitsOf(o.speed, 7);
  }

  /** The speed instruction does what it should, except for step 29 of 29 steps,
      which a decoder takes for a stop. */
  lemma SpeedObeyed(d: Decoder, o: Order)
    requires Sendable(o) && d.steps14 == (o.n_fs < 15)
    ensures Execute(d, SpeedBytes(o.n_fs, o.forward, o.speed, Bit(o.func, 0)))
         == if TopStepOf29(o) then d.(forward := o.forward, motion := Stop) else Driven(d, o)
  {
    hide Execute, Driven, BaselineByte, Steps28Byte, Steps128Bytes, Bit;
    if o.speed < 2 || o.n_fs < 15 {
      BaselineObeyed(d, o);
    } else if o.n_fs > 29 {
      Steps128Obeyed(d, o);
    } else {
      Steps28Obeyed(d, o);
    }
  }

  // ---------- all packets of a locomotive ----------

  lemma ExecuteKeeps(d: Decoder, instr: seq<Byte>)
    requires AllBytes(instr)
    ensures var e := Execute(d, instr); e.adr == d.adr && e.steps14 == d.steps14 && |e.f| == |d.f|
  {
    hide ValueOf;
  }

  lemma ObeyNext(d: Decoder, ps: seq<seq<Byte>>, o: Order, instr: seq<Byte>)
    requires AllPackets(ps) && Sendable(o) && AllBytes(instr)
    ensures AllOfBytes(AllChecked(ps)) && AllOfBytes(AllChecked(ps + [ToAddress(o, instr)]))
    ensures var e := ObeyAll(d, AllChecked(ps));
            ObeyAll(d, AllChecked(ps + [ToAddress(o, instr)])) == if e.adr == AdrOf(o) then Execute(e, instr) else e
  {
    hide AdrBytes, Execute, Obey;
    var p := ToAddress(o, instr);
    assert (ps + [p])[..|ps|] == ps;
    var a := AllChecked(ps);
    assert AllChecked(ps + [p]) == a + [Checked(p)];
    assert (a + [Checked(p)])[..|a|] == a;
    ObeyOwn(ObeyAll(d, a), o, instr);
  }

  lemma ObeyFirst(d: Decoder, o: Order, instr: seq<Byte>)
    requires Sendable(o) && AllBytes(instr)
    ensures AllOfBytes(AllChecked([ToAddress(o, instr)]))
    ensures ObeyAll(d, AllChecked([ToAddress(o, instr)])) == if d.adr == AdrOf(o) then Execute(d, instr) else d
  {
    hide AdrBytes, Execute;
    ObeyNext(d, [], o, instr);
    assert [] + [ToAddress(o, instr)] == [ToAddress(o, instr)];
    assert AllChecked([]) == [];
  }

  /** The state after the speed instruction, also for the step it gets wrong. */
  function Moved(d: Decoder, o: Order): Decoder {
    if TopStepOf29(o) then d.(forward := o.forward, motion := Stop) else Driven(d, o)
  }

  function AfterFirst(d: Decoder, o: Order): Decoder {
    var a := Moved(d, o);
    var b := if HasFunctions(o) && o.n_func > 5 then WithFs(a, o.func, 5, 9) else a;
    if HasFunctions(o) && o.n_func > 12 then WithFs(b, o.func, 13, 21) else b
  }

  function AfterFunctions(d: Decoder, o: Order): Decoder {
    var a := WithFs(d, o.func, 0, 5);
    var b := if o.n_func > 8 then WithFs(a, o.func, 9, 13) else a;
    if o.n_func > 20 then WithFs(b, o.func, 21, 29) else b
  }

  predicate Listens(d: Decoder, o: Order) {
    d.adr == AdrOf(o) && d.steps14 == (o.n_fs < 15) && |d.f| == FUNCTIONS
  }

  lemma FirstObeyed(d: Decoder, o: Order)
    requires Sendable(o) && Listens(d, o)
    ensures AllOfBytes(AllChecked(FirstPackets(o)))
    ensures ObeyAll(d, AllChecked(FirstPackets(o))) == AfterFirst(d, o)
  {
    hide AdrBytes, Execute, Obey, ObeyAll, AllChecked, WithFs, Driven, SpeedBytes, GroupTwo, Expansion, Bit;
    var speed := SpeedBytes(o.n_fs, o.forward, o.speed, Bit(o.func, 0));
    SpeedObeyed(d, o);
    ExecuteKeeps(d, speed);
    ObeyFirst(d, o, speed);
    var ps := [SpeedPacket(o)];
    assert ps == [ToAddress(o, speed)];
    var e := Moved(d, o);
    if HasFunctions(o) && o.n_func > 5 {
      GroupTwoObeyed(e, o.func, true);
      ObeyNext(d, ps, o, [GroupTwo(o.func, true)]);
      ExecuteKeeps(e, [GroupTwo(o.func, true)]);
      ps := ps + [ToAddress(o, [GroupTwo(o.func, true)])];
      e := WithFs(e, o.func, 5, 9);
      if o.n_func > 12 {
        ExpansionObeyed(e, o.func, false);
        ObeyNext(d, ps, o, Expansion(o.func, false));
        ps := ps + [ToAddress(o, Expansion(o.func, false))];
      }
    }
    assert ps == FirstPackets(o);
  }

  lemma FunctionsObeyed(d: Decoder, o: Order)
    requires Sendable(o) && Listens(d, o)
    ensures AllOfBytes(AllChecked(FunctionPackets(o)))
    ensures ObeyAll(d, AllChecked(FunctionPackets(o))) == AfterFunctions(d, o)
  {
    hide AdrBytes, Execute, Obey, ObeyAll, AllChecked, WithFs, GroupOne, GroupTwo, Expansion;
    GroupOneObeyed(d, o.func);
    ExecuteKeeps(d, [GroupOne(o.func)]);
    ObeyFirst(d, o, [GroupOne(o.func)]);
    var ps := [ToAddress(o, [GroupOne(o.func)])];
    var e := WithFs(d, o.func, 0, 5);
    if o.n_func > 8 {
      GroupTwoObeyed(e, o.func, false);
      ObeyNext(d, ps, o, [GroupTwo(o.func, false)]);
      ExecuteKeeps(e, [GroupTwo(o.func, false)]);
      ps := ps + [ToAddress(o, [GroupTwo(o.func, false)])];
      e := WithFs(e, o.func, 9, 13);
      if o.n_func > 20 {
        ExpansionObeyed(e, o.func, true);
        ObeyNext(d, ps, o, Expansion(o.func, true));
        ps := ps + [ToAddress(o, Expansion(o.func, true))];
      }
    }
    assert ps == FunctionPackets(o);
  }

  /** How many functions a record brings to the track: by the groups of the
      instructions, so up to three more than it has. */
  function Covered(o: Order): (n: nat)
    ensures n <= FUNCTIONS
  {
    if o.n_fs < 15 then 1
    else if o.n_func == 0 then 0
    else if o.n_func <= 5 then 5
    else if o.n_func <= 8 then 9
    else if o.n_func <= 12 then 13
    else if o.n_func <= 20 then 21
    else 29
  }

  /** What the decoder should be after both streams. */
  function Intended(d: Decoder, o: Order): Decoder {
    WithFs(d.(forward := o.forward, motion := if TopStepOf29(o) then Stop else MotionOf(o.speed)), o.func, 0, Covered(o))
  }

  lemma WithNone(d: Decoder, func: nat)
    ensures WithFs(d, func, 0, 0) == d
  {
    hide Bit;
    assert WithFs(d, func, 0, 0).f == d.f;
  }

  lemma WithSwapped(d: Decoder, func: nat, lo: nat, hi: nat, from: nat, to: nat)
    ensures WithFs(WithFs(d, func, lo, hi), func, from, to) == WithFs(WithFs(d, func, from, to), func, lo, hi)
  {
    hide Bit;
    assert WithFs(WithFs(d, func, lo, hi), func, from, to).f == WithFs(WithFs(d, func, from, to), func, lo, hi).f;
  }

  lemma Sorted(d: Decoder, o: Order)
    requires HasFunctions(o)
    ensures AfterFunctions(AfterFirst(d, o), o) == WithFs(Moved(d, o), o.func, 0, Covered(o))
  {
    hide WithFs, Moved;
    var e, g := Moved(d, o), o.func;
    var low := WithFs(e, g, 5, 9);
    WithSwapped(e, g, 5, 9, 0, 5);
    WithJoined(e, g, 0, 5, 9);
    if o.n_func > 12 {
      WithSwapped(low, g, 13, 21, 0, 5);
      WithSwapped(WithFs(e, g, 0, 9), g, 13, 21, 9, 13);
      WithJoined(e, g, 0, 9, 13);
      WithJoined(e, g, 0, 13, 21);
      WithJoined(e, g, 0, 21, 29);
    } else {
      WithJoined(e, g, 0, 9, 13);
    }
  }

  lemma {:induction false} ObeyConcat(d: Decoder, a: seq<seq<Byte>>, b: seq<seq<Byte>>)
    requires AllOfBytes(a) && AllOfBytes(b)
    ensures AllOfBytes(a + b) && ObeyAll(d, a + b) == ObeyAll(ObeyAll(d, a), b)
    decreases |b|
  {
    hide Obey;
    if b == [] {
      assert a + b == a;
    } else {
      var n := |b| - 1;
      assert (a + b)[..|a + b| - 1] == a + b[..n];
      ObeyConcat(d, a, b[..n]);
    }
  }

  lemma DrivenTwice(d: Decoder, o: Order)
    ensures Moved(Moved(d, o), o) == Moved(d, o)
  {
    hide Bit, MotionOf;
    var e := d.(forward := o.forward, motion := MotionOf(o.speed));
    assert WithFs(WithFs(e, o.func, 0, 1), o.func, 0, 1).f == WithFs(e, o.func, 0, 1).f;
  }

  lemma MovedKeeps(d: Decoder, o: Order)
    ensures var e := AfterFirst(d, o); e.adr == d.adr && e.steps14 == d.steps14 && |e.f| == |d.f|
  {
    hide Bit, MotionOf;
  }

  /** The packets of the two pool buffers in the order of transmission. */
  function PoolPackets(o: Order): (ps: seq<seq<Byte>>)
    ensures AllOfBytes(ps)
  {
    hide AdrBytes, FirstPackets, SecondPackets;
    AllChecked(FirstPackets(o)) + AllChecked(SecondPackets(o))
  }

  /** A decoder that listens gets direction, speed code and functions as the order
      has them; only step 29 of 29 steps comes out as a stop. */
  lemma OrderObeyed(d: Decoder, o: Order)
    requires Sendable(o) && Listens(d, o)
    ensures ObeyAll(d, PoolPackets(o)) == Intended(d, o)
  {
    hide FirstPackets, FunctionPackets, AfterFirst, AfterFunctions, ObeyAll, AllChecked, WithFs, Driven, MotionOf;
    var e := AfterFirst(d, o);
    MovedKeeps(d, o);
    FirstObeyed(d, o);
    ObeyConcat(d, AllChecked(FirstPackets(o)), AllChecked(SecondPackets(o)));
    if HasFunctions(o) {
      FunctionsObeyed(e, o);
      Sorted(d, o);
    } else {
      FirstObeyed(e, o);
      PlainFirst(d, o);
      PlainFirst(e, o);
      DrivenTwice(d, o);
    }
    WithNone(Moved(d, o), o.func);
    MovedIntended(d, o);
  }

  lemma PlainFirst(d: Decoder, o: Order)
    requires !HasFunctions(o)
    ensures AfterFirst(d, o) == Moved(d, o)
  {
  }

  lemma MovedIntended(d: Decoder, o: Order)
    ensures WithFs(Moved(d, o), o.func, 0, Covered(o)) == Intended(d, o)
    ensures o.n_fs < 15 ==> Moved(d, o) == Intended(d, o)
  {
    hide Bit, MotionOf;
    if o.n_fs < 15 {
      var e := d.(forward := o.forward, motion := MotionOf(o.speed));
      assert WithFs(WithFs(e, o.func, 0, 1), o.func, 0, 1).f == WithFs(e, o.func, 0, 1).f;
    }
  }

  ghost predicate IsFor(o: Order, p: seq<Byte>) {
    exists instr :: AllBytes(instr) && p == ToAddress(o, instr)
  }

  lemma {:induction false} NotAddressed(d: Decoder, o: Order, ps: seq<seq<Byte>>)
    requires Sendable(o) && d.adr != AdrOf(o) && AllPackets(ps) && AllOfBytes(AllChecked(ps))
    requires forall k :: 0 <= k < |ps| ==> IsFor(o, ps[k])
    ensures ObeyAll(d, AllChecked(ps)) == d
    decreases |ps|
  {
    hide AdrBytes, Execute, ToAddress, Obey, ObeyAll, AllChecked, IsFor;
    if ps == [] {
      NoPackets(d);
    } else {
      var n := |ps| - 1;
      AllBefore(ps, n);
      NotAddressed(d, o, ps[..n]);
      NotForMe(d, o, ps[..n], ps[n]);
      assert ps == ps[..n] + [ps[n]];
    }
  }

  lemma NoPackets(d: Decoder)
    ensures AllChecked([]) == [] && ObeyAll(d, []) == d
  {
  }

  lemma AllBefore(ps: seq<seq<Byte>>, n: nat)
    requires AllPackets(ps) && n <= |ps|
    ensures AllPackets(ps[..n]) && AllOfBytes(AllChecked(ps[..n]))
  {
  }

  lemma NotForMe(d: Decoder, o: Order, ps: seq<seq<Byte>>, p: seq<Byte>)
    requires Sendable(o) && d.adr != AdrOf(o) && AllPackets(ps) && AllOfBytes(AllChecked(ps)) && IsFor(o, p)
    requires AllPackets(ps + [p]) && ObeyAll(d, AllChecked(ps)) == d
    ensures AllOfBytes(AllChecked(ps + [p])) && ObeyAll(d, AllChecked(ps + [p])) == d
  {
    hide AdrBytes, Execute, ToAddress, Obey, ObeyAll, AllChecked;
    var instr :| AllBytes(instr) && p == ToAddress(o, instr);
    ObeyNext(d, ps, o, instr);
  }

  /** Every other decoder stays as it is. */
  lemma OthersUntouched(d: Decoder, o: Order)
    requires Sendable(o) && d.adr != AdrOf(o)
    ensures ObeyAll(d, PoolPackets(o)) == d
  {
    hide ToAddress, AdrBytes, Execute, Obey, ObeyAll, AllChecked, IsFor, FirstPackets, FunctionPackets;
    PacketsAreFor(o);
    NotAddressed(d, o, FirstPackets(o));
    NotAddressed(d, o, SecondPackets(o));
    ObeyConcat(d, AllChecked(FirstPackets(o)), AllChecked(SecondPackets(o)));
  }

  lemma PacketsAreFor(o: Order)
    ensures forall k :: 0 <= k < |FirstPackets(o)| ==> IsFor(o, FirstPackets(o)[k])
    ensures forall k :: 0 <= k < |FunctionPackets(o)| ==> IsFor(o, FunctionPackets(o)[k])
  {
    hide ToAddress, SpeedBytes, GroupOne, GroupTwo, Expansion, Bit;
    var speed := SpeedBytes(o.n_fs, o.forward, o.speed, Bit(o.func, 0));
    assert SpeedPacket(o) == ToAddress(o, speed);
    assert IsFor(o, SpeedPacket(o));
    assert IsFor(o, ToAddress(o, [GroupTwo(o.func, true)])) && IsFor(o, ToAddress(o, Expansion(o.func, false)));
    assert IsFor(o, ToAddress(o, [GroupOne(o.func)])) && IsFor(o, ToAddress(o, [GroupTwo(o.func, false)]));
    assert IsFor(o, ToAddress(o, Expansion(o.func, true)));
    hide IsFor;
  }

  // ---------- from the record to the decoder ----------

  /** What a receiver gets from the pulses of a pool entry: exactly the intended
      packets, whatever number of preamble ones between 10 and 12 it insists on. */
  lemma EntryReceived(e: Entry, o: Order, need: nat)
    requires Carries(e.packet, Train(FirstPackets(o))) && Carries(e.fx_packet, Train(SecondPackets(o)))
    requires 10 <= need <= 12
    ensures IsLong(e.packet) && IsLong(e.fx_packet)
    ensures Receive(need, Hunt(0), TrackBits(e.packet)) == AllChecked(FirstPackets(o))
    ensures Receive(need, Hunt(0), TrackBits(e.fx_packet)) == AllChecked(SecondPackets(o))
  {
    hide Train, FirstPackets, SecondPackets, Receive, AllChecked, Carries, TrackBits;
    TrainStart(FirstPackets(o));
    TrainStart(SecondPackets(o));
    CarriedBits(e.packet, Train(FirstPackets(o)));
    CarriedBits(e.fx_packet, Train(SecondPackets(o)));
    assert Ones(1) == [true];
    TrainReceived(need, 0, FirstPackets(o), 1);
    TrainReceived(need, 0, SecondPackets(o), 1);
  }

  /** A record that comp_nmra_multi_func sends. */
  predicate IsSent(r: Record) {
    Sendable(OrderOf(r)) && 0 <= Heading(r) <= 1
  }

  /** The decoder of a record after both streams, with motion m. */
  function AsRecorded(d: Decoder, r: Record, m: Motion): Decoder {
    WithFs(d.(forward := Heading(r) == 1, motion := m), r.funcs, 0, Covered(OrderOf(r)))
  }

  /** The motion that reaches the decoder: steps above 126 end at 126, and step 29
      of 29 is a stop. */
  function MotionTaken(r: Record): Motion {
    if TopStepOf29(OrderOf(r)) then Stop
    else if !r.emergency && r.speed > 126 then Step(126)
    else MotionWanted(r)
  }

  /** The decoder of a record that is sent gets its direction, the functions its
      count covers, and exactly the speed it asks for, if and only if it is an
      emergency stop or asks for no step above 126 and not for step 29 of 29. */
  lemma RecordObeyed(d: Decoder, r: Record)
    requires IsSent(r) && Listens(d, OrderOf(r))
    ensures ObeyAll(d, PoolPackets(OrderOf(r))) == AsRecorded(d, r, MotionTaken(r))
    ensures ObeyAll(d, PoolPackets(OrderOf(r))) == AsRecorded(d, r, MotionWanted(r)) <==>
            r.emergency || (r.speed <= 126 && !(r.n_fs == 29 && r.speed == 29))
  {
    OrderObeyed(d, OrderOf(r));
    SpeedCodeMeans(r);
    hide ObeyAll, PoolPackets, Bit;
  }

  /** Every function of a record reaches its decoder if and only if it has no more
      than 29, or than one with 14 steps. */
  lemma AllCovered(r: Record)
    ensures Covered(OrderOf(r)) >= r.n_func <==> r.n_func <= if r.n_fs < 15 then 1 else 29
  {
  }

  /** What is sent, in the fields of a record: an address of its range; for an
      emergency stop the direction that was sent last, whatever is asked for now;
      otherwise direction and speed, where 126 steps and more take any speed. */
  lemma SentIff(r: Record)
    ensures IsSent(r) <==>
            && 1 <= r.id <= 10239 && (r.protocolversion == 2 || (r.protocolversion == 1 && r.id <= 127))
            && (if r.emergency then 0 <= r.cacheddirection <= 1
                else 0 <= r.direction <= 1 && (r.speed == 0 || r.speed <= r.n_fs || r.n_fs >= 126))
  {
  }

  /** A decoder set to the address and steps of a record. */
  predicate IsOf(d: Decoder, r: Record) {
    && d.adr == (if r.protocolversion == 1 then Short(r.id) else Long(r.id))
    && d.steps14 == (r.n_fs < 15) && |d.f| == 29
  }

  /** An emergency stop keeps the direction sent last; otherwise direction and
      speed are those of the record. */
  lemma MovesAsRecorded(d: Decoder, r: Record)
    requires IsSent(r) && IsOf(d, r)
    ensures var e := ObeyAll(d, PoolPackets(OrderOf(r)));
            && (r.emergency ==> e.motion == EmergencyStop && e.forward == (r.cacheddirection == 1))
            && (!r.emergency ==> e.forward == (r.direction == 1))
            && (!r.emergency && r.speed == 0 ==> e.motion == Stop)
            && (!r.emergency && 0 < r.speed && !(r.n_fs == 29 && r.speed == 29) ==>
                  e.motion == Step(if r.speed <= 126 then r.speed else 126))
  {
    RecordObeyed(d, r);
    hide ObeyAll, PoolPackets, Bit;
  }

  /** With more than 14 steps, each of the first 29 functions that the record has is
      on or off as recorded; with 14 steps F0 is, and no other one changes. */
  lemma FunctionsAsRecorded(d: Decoder, r: Record, i: nat)
    requires IsSent(r) && IsOf(d, r) && i < 29
    ensures var e := ObeyAll(d, PoolPackets(OrderOf(r)));
            && |e.f| == 29
            && (r.n_fs >= 15 && i < r.n_func ==> e.f[i] == Bit(r.funcs, i))
            && (r.n_fs >= 15 && r.n_func == 0 ==> e.f[i] == d.f[i])
            && (r.n_fs < 15 ==> e.f[i] == if i == 0 then Bit(r.funcs, 0) else d.f[i])
  {
    RecordObeyed(d, r);
    hide ObeyAll, PoolPackets, Bit, MotionTaken;
  }

  /** Both buffers of a pool entry, sent through the SPI: the decoder of the record
      does what reaches it and no other decoder reacts. */
  lemma TrackObeyed(d: Decoder, r: Record, e: Entry, need: nat, s: seq<bv8>, len: nat, t: seq<bv8>, fxLen: nat)
    requires IsSent(r) && 10 <= need <= 12
    requires Carries(e.packet, Train(FirstPackets(OrderOf(r))))
    requires Carries(e.fx_packet, Train(SecondPackets(OrderOf(r))))
    requires IsLong(e.packet) && Wave(s, len, TrackBits(e.packet))
    requires IsLong(e.fx_packet) && Wave(t, fxLen, TrackBits(e.fx_packet))
    ensures 1 <= len && 1 <= fxLen
    ensures var ps := Receive(need, Hunt(0), ReadPulses(s[1..len])) + Receive(need, Hunt(0), ReadPulses(t[1..fxLen]));
            && AllOfBytes(ps)
            && (Listens(d, OrderOf(r)) ==> ObeyAll(d, ps) == AsRecorded(d, r, MotionTaken(r)))
            && (d.adr != AdrOf(OrderOf(r)) ==> ObeyAll(d, ps) == d)
  {
    hide Train, FirstPackets, SecondPackets, Receive, AllChecked, Carries, TrackBits, ReadPulses, ObeyAll,
         AllOfBytes, Listens, Wave, AsRecorded, MotionTaken, OrderOf;
    var o := OrderOf(r);
    EntryReceived(e, o, need);
    WaveRead(s, len, TrackBits(e.packet));
    WaveRead(t, fxLen, TrackBits(e.fx_packet));
    assert AllOfBytes(PoolPackets(o));
    if Listens(d, o) { RecordObeyed(d, r); }
    if d.adr != AdrOf(o) { OthersUntouched(d, o); }
  }
}
