/** The record of a locomotive decoder (gl_data_t), as far as the encoders use it. */
module Locos {

  const SCSPEED: bv8 := 1
  const SCDIREC: bv8 := 2
  const SCEMERG: bv8 := 4

  /** A direction is an int8_t: 0 backward, 1 forward, 2 emergency, -1 for a
      terminated decoder; clients can store any other. */
  predicate IsDirection(d: int) { -128 <= d < 128 }

  /** The values of a record that an encoder works on. */
  datatype Record = Record(id: nat, protocolversion: nat, n_fs: nat, n_func: nat, speed: nat,
                           direction: int, cacheddirection: int, funcs: nat, emergency: bool)

  class Loco {
    var id: nat
    var protocolversion: nat
    var n_fs: nat
    var n_func: nat
    var speed: nat
    var direction: int
    var cacheddirection: int
    var funcs: nat
    var funcschange: nat
    var speedchange: bv8

    predicate Valid()
      reads this
    {
      id < 0x10000 && n_fs < 256 && n_func < 256 && speed < 256 &&
      IsDirection(direction) && IsDirection(cacheddirection)
    }

    predicate Emergency()
      reads this
    {
      speedchange & SCEMERG != 0
    }

    function AsRecord(): Record
      reads this
    {
      Record(id, protocolversion, n_fs, n_func, speed, direction, cacheddirection, funcs, Emergency())
    }

    /** Both encoders take the emergency flag and clear every flag they handle. */
    method TakeFlags() returns (emergency: bool)
      modifies this`speedchange
      ensures emergency == old(Emergency())
      ensures speedchange == old(speedchange) & 0xF8
    {
      HandledFlags(speedchange);
      emergency := speedchange & SCEMERG != 0;
      if emergency {
        speedchange := speedchange & !SCEMERG;
      }
      speedchange := speedchange & !(SCSPEED | SCDIREC);
    }
  }

  lemma HandledFlags(x: bv8)
    ensures x & !SCEMERG & !(SCSPEED | SCDIREC) == x & 0xF8
    ensures x & SCEMERG == 0 ==> x & !(SCSPEED | SCDIREC) == x & 0xF8
  {
  }

  // ---------- what a record asks for, and what is sent ----------

  /** The direction to send; after an emergency stop the last one sent. */
  function Heading(r: Record): int {
    if r.emergency then r.cacheddirection else r.direction
  }

  /** Emergency is code 1, a speed its step plus 1, at most 127. */
  function SpeedCode(speed: nat, emergency: bool): (c: nat)
    ensures c <= 127
  {
    var s := if emergency then 1 else if speed > 0 then speed + 1 else 0;
    if s > 127 then 127 else s
  }

  datatype Motion = Stop | EmergencyStop | Step(n: nat)

  /** What decoders of both systems understand by a speed code. */
  function MotionOf(code: nat): Motion {
    if code == 0 then Stop else if code == 1 then EmergencyStop else Step(code - 1)
  }

  /** What a record asks for. */
  function MotionWanted(r: Record): Motion {
    if r.emergency then EmergencyStop else if r.speed == 0 then Stop else Step(r.speed)
  }

  /** The code says what the record asks for, except for the steps above 126: they
      are all sent as step 126. */
  lemma SpeedCodeMeans(r: Record)
    ensures MotionOf(SpeedCode(r.speed, r.emergency)) == MotionWanted(r) <==> r.emergency || r.speed <= 126
    ensures !r.emergency && r.speed > 126 ==> MotionOf(SpeedCode(r.speed, r.emergency)) == Step(126)
  {
  }
}
