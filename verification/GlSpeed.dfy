/** Speed scaling between a client's range and a decoder's speed steps, the speed
    command of the MCS gateway, and the queue of locomotives to serve. */
module GlSpeed {
  import opened Locos
  import opened Options
  import PacketPool

  // ---------- scaling ----------

  /** The C operator / for integers: rounds towards zero. */
  function Quotient(a: int, b: int): int
    requires b != 0
  {
    if a >= 0 then (if b > 0 then a / b else -(a / -b)) else (if b > 0 then -(-a / b) else -a / -b)
  }

  function Clamped(vs: int, vmax: int): int {
    var v := if vs < 0 then 0 else vs;
    if v > vmax then vmax else v
  }

  /** calcspeed in unbounded arithmetic. */
  function CalcSpeed(vs: int, vmax: int, n_fs: nat): int {
    if vmax == 0 then vs
    else
      var v := Clamped(vs, vmax);
      var rs := Quotient(2 * (v * n_fs) + vmax, vmax) / 2;
      if rs == 0 && v != 0 then 1 else rs
  }

  function Abs(x: int): nat { if x < 0 then -x else x }

  lemma Halving(a: nat, b: nat)
    requires b > 0
    ensures a / b / 2 * (2 * b) <= a < (a / b / 2 + 1) * (2 * b)
  {
    var q := a / b;
    QuotientIs(a, b);
    var h := q / 2;
    MulMono(2 * h, q, b);
    MulMono(q + 1, 2 * h + 2, b);
    Doubled(h, b);
    Doubled(h + 1, b);
  }

  lemma QuotientIs(a: nat, b: nat)
    requires b > 0
    ensures a / b * b <= a < (a / b + 1) * b
  {
  }

  lemma Doubled(h: nat, b: nat)
    ensures (2 * h) * b == h * (2 * b)
  {
  }

  lemma MulMono(a: int, b: int, c: nat)
    requires a <= b
    ensures a * c <= b * c
  {
  }

  lemma MulStrict(a: int, b: int, c: nat)
    requires a * c < b * c
    ensures a < b
  {
    if a >= b { MulMono(b, a, c); }
  }

  /** Before the step from 0 to 1 the result is v * n / vmax, rounded half up. */
  lemma Rounded(v: nat, vmax: nat, n: nat)
    requires 0 < vmax && v <= vmax
    ensures var r := Quotient(2 * (v * n) + vmax, vmax) / 2;
            0 <= r && (2 * r - 1) * vmax <= 2 * (v * n) < (2 * r + 1) * vmax
  {
    var a := 2 * (v * n) + vmax;
    assert v * n >= 0;
    Halving(a, vmax);
    var r := a / vmax / 2;
    assert r * (2 * vmax) == (2 * r) * vmax && (r + 1) * (2 * vmax) == (2 * r + 2) * vmax;
    assert (2 * r - 1) * vmax == (2 * r) * vmax - vmax && (2 * r + 1) * vmax == (2 * r + 2) * vmax - vmax;
  }

  /** The result is within the decoder's steps and 0 for no positive speed. */
  lemma SpeedRange(vs: int, vmax: int, n: nat)
    requires vmax > 0 && n > 0
    ensures 0 <= CalcSpeed(vs, vmax, n) <= n
    ensures CalcSpeed(vs, vmax, n) == 0 <==> vs <= 0
  {
    var v := Clamped(vs, vmax);
    Rounded(v, vmax, n);
    hide Quotient;
    var r := Quotient(2 * (v * n) + vmax, vmax) / 2;
    if v == 0 {
      MulStrict(2 * r - 1, 1, vmax);
    }
    MulMono(v, vmax, n);
    assert 2 * (v * n) <= (2 * n) * vmax;
    MulStrict(2 * r - 1, 2 * n + 1, vmax);
  }

  lemma RoundedIs(v: nat, vmax: nat, n: nat, r: int)
    requires 0 < vmax && v <= vmax
    requires (2 * r - 1) * vmax <= 2 * (v * n) < (2 * r + 1) * vmax
    ensures Quotient(2 * (v * n) + vmax, vmax) / 2 == r
  {
    Rounded(v, vmax, n);
    hide Quotient;
    var q := Quotient(2 * (v * n) + vmax, vmax) / 2;
    MulStrict(2 * r - 1, 2 * q + 1, vmax);
    MulStrict(2 * q - 1, 2 * r + 1, vmax);
  }

  /** A higher speed never gets a lower step, whatever the maximum. */
  lemma SpeedMonotone(vs: int, ws: int, vmax: int, n: nat)
    requires vs <= ws
    ensures CalcSpeed(vs, vmax, n) <= CalcSpeed(ws, vmax, n)
  {
    if vmax > 0 {
      var v, w := Clamped(vs, vmax), Clamped(ws, vmax);
      Rounded(v, vmax, n);
      Rounded(w, vmax, n);
      hide Quotient;
      var r := Quotient(2 * (v * n) + vmax, vmax) / 2;
      var q := Quotient(2 * (w * n) + vmax, vmax) / 2;
      MulMono(v, w, n);
      MulStrict(2 * r - 1, 2 * q + 1, vmax);
    } else if vmax < 0 {
      assert Clamped(vs, vmax) == Clamped(ws, vmax);
    }
  }

  lemma Distributed(r: int, vmax: nat)
    ensures (2 * r - 1) * vmax == 2 * (r * vmax) - vmax && (2 * r + 1) * vmax == 2 * (r * vmax) + vmax
    ensures (r - 1) * vmax == r * vmax - vmax && (r + 1) * vmax == r * vmax + vmax
  {
  }

  lemma Apart(r: int, k: int, vmax: nat)
    ensures k > r ==> k * vmax >= r * vmax + vmax
    ensures k < r ==> k * vmax <= r * vmax - vmax
  {
    Distributed(r, vmax);
    if k > r {
      MulMono(r + 1, k, vmax);
    } else if k < r {
      MulMono(k, r - 1, vmax);
    }
  }

  /** No other step is nearer to d, and an equally near one is lower. */
  lemma Nearest(r: int, k: int, vmax: nat, d: int)
    requires (2 * r - 1) * vmax <= 2 * d < (2 * r + 1) * vmax
    ensures Abs(r * vmax - d) <= Abs(k * vmax - d)
    ensures Abs(r * vmax - d) == Abs(k * vmax - d) ==> k <= r
  {
    Distributed(r, vmax);
    Apart(r, k, vmax);
    var rm, km := r * vmax, k * vmax;
    assert 2 * rm - vmax <= 2 * d < 2 * rm + vmax;
    assert k > r ==> km >= rm + vmax;
    assert k < r ==> km <= rm - vmax;
  }

  /** The result is the nearest step, the upper one on a tie; only a positive speed
      that would round to a standstill is lifted to step 1. */
  lemma SpeedNearest(vs: int, vmax: int, n: nat, k: int)
    requires 0 <= vs <= vmax && vmax > 0
    ensures var r := CalcSpeed(vs, vmax, n);
            if 0 < vs && 2 * (vs * n) < vmax then r == 1
            else
              Abs(r * vmax - vs * n) <= Abs(k * vmax - vs * n)
              && (Abs(r * vmax - vs * n) == Abs(k * vmax - vs * n) ==> k <= r)
  {
    Rounded(vs, vmax, n);
    hide Quotient, Abs;
    var r := Quotient(2 * (vs * n) + vmax, vmax) / 2;
    Nearest(r, k, vmax, vs * n);
    if 2 * (vs * n) < vmax {
      MulStrict(2 * r - 1, 1, vmax);
    }
    assert r == 0 ==> (2 * r + 1) * vmax == vmax;
  }

  /** A negative maximum, which nothing refuses, always gives the highest step. */
  lemma NegativeMaximum(vs: int, vmax: int, n: nat)
    requires vmax < 0 && n > 0
    ensures CalcSpeed(vs, vmax, n) == n
  {
    assert Clamped(vs, vmax) == vmax;
    var m := -vmax;
    assert 2 * (vmax * n) + vmax == -((2 * n + 1) * m);
    Exact(2 * n + 1, m);
  }

  lemma Exact(k: nat, m: nat)
    requires m > 0
    ensures Quotient(0 - k * m, 0 - m) == k
  {
    MulMono(0, k, m);
    assert k * m >= 0;
    assert (k * m) / m == k;
  }

  /** Without a maximum the client's speed is taken as it is, also below 0 and
      above the decoder's steps. */
  lemma NoMaximum(vs: int, n: nat)
    ensures CalcSpeed(vs, 0, n) == vs
  {
  }

  // ---------- on 32-bit integers ----------

  const INT_LIMIT := 0x8000_0000

  predicate IsInt(x: int) { -INT_LIMIT <= x < INT_LIMIT }

  /** An int after an operation that overflowed, where it wraps round. */
  function Wrap(x: int): int { (x + INT_LIMIT) % (2 * INT_LIMIT) - INT_LIMIT }

  /** calcspeed as the machine computes it. */
  function MachineSpeed(vs: int, vmax: int, n_fs: nat): int {
    if vmax == 0 then vs
    else
      var v := Clamped(vs, vmax);
      var rs := Wrap(v * n_fs);
      var doubled := Wrap(2 * rs);
      var rounded := Wrap(doubled + vmax);
      var r := Quotient(rounded, vmax) / 2;
      if r == 0 && v != 0 then 1 else r
  }

  /** No intermediate value leaves the int; beyond that C promises nothing. */
  predicate Fits(vs: int, vmax: int, n_fs: nat) {
    var d := Clamped(vs, vmax) * n_fs;
    vmax == 0 || (IsInt(d) && IsInt(2 * d) && IsInt(2 * d + vmax))
  }

  lemma WrapIs(x: int)
    requires IsInt(x)
    ensures Wrap(x) == x
  {
  }

  /** Where everything fits the machine computes the scale. */
  lemma MachineIs(vs: int, vmax: int, n: nat)
    requires Fits(vs, vmax, n)
    ensures MachineSpeed(vs, vmax, n) == CalcSpeed(vs, vmax, n)
  {
    if vmax != 0 {
      var d := Clamped(vs, vmax) * n;
      WrapIs(d);
      WrapIs(2 * d);
      WrapIs(2 * d + vmax);
      hide Wrap, Quotient;
    }
  }

  lemma TwiceAndOne(vmax: nat, n: nat)
    ensures (2 * n + 1) * vmax == 2 * (vmax * n) + vmax
  {
  }

  /** For a positive maximum every speed fits if and only if the highest one does. */
  lemma AllFit(vmax: int, n: nat)
    requires 0 < vmax < INT_LIMIT
    ensures (forall vs :: IsInt(vs) ==> Fits(vs, vmax, n)) <==> (2 * n + 1) * vmax < INT_LIMIT
  {
    TwiceAndOne(vmax, n);
    MulMono(0, n, vmax);
    if (2 * n + 1) * vmax < INT_LIMIT {
      forall vs | IsInt(vs) ensures Fits(vs, vmax, n) {
        var v := Clamped(vs, vmax);
        MulMono(v, vmax, n);
        MulMono(0, v, n);
      }
    } else {
      assert IsInt(vmax) && Clamped(vmax, vmax) == vmax && !Fits(vmax, vmax, n);
    }
  }

  /** The scale does what it should, for every speed of a client, if and only if the
      maximum is positive and small enough for the machine: everything fits, every
      speed is within the decoder's steps, and a standstill is for no other than
      speeds up to 0. */
  lemma ScaleIsGood(vmax: int, n: nat)
    requires n > 0 && IsInt(vmax)
    ensures (forall vs :: IsInt(vs) ==>
               && Fits(vs, vmax, n) && 0 <= CalcSpeed(vs, vmax, n) <= n
               && (CalcSpeed(vs, vmax, n) == 0 <==> vs <= 0))
            <==> 0 < vmax && (2 * n + 1) * vmax < INT_LIMIT
  {
    hide CalcSpeed, Fits;
    if vmax > 0 {
      AllFit(vmax, n);
      forall vs
        ensures 0 <= CalcSpeed(vs, vmax, n) <= n && (CalcSpeed(vs, vmax, n) == 0 <==> vs <= 0)
      {
        SpeedRange(vs, vmax, n);
      }
    } else if vmax == 0 {
      NoMaximum(-1, n);
      assert IsInt(-1);
    } else {
      NegativeMaximum(-1, vmax, n);
      assert IsInt(-1);
    }
  }

  /** What clients get with maxima of 0, -1 and 50 million from a decoder with 28 steps. */
  lemma BadMaxima()
    ensures MachineSpeed(200, 0, 28) == 200 && MachineSpeed(-5, 0, 28) == -5
    ensures MachineSpeed(0, -1, 28) == 28
    ensures MachineSpeed(50_000_000, 50_000_000, 28) == -14
  {
    assert Wrap(50_000_000 * 28) == 1_400_000_000;
    assert Wrap(2 * 1_400_000_000) == -1_494_967_296;
    assert Wrap(-1_494_967_296 + 50_000_000) == -1_444_967_296;
    assert Quotient(-1_444_967_296, 50_000_000) == -28;
    assert Quotient(-57, -1) == 57 && Wrap(-1 * 28) == -28 && Wrap(-56) == -56 && Wrap(-57) == -57;
  }

  // ---------- the MCS range 0 to 1000 ----------

  /** The answer to a speed query. */
  function Query(speed: nat, n_fs: nat): nat
    requires n_fs > 0
  {
    speed * 1000 / n_fs
  }

  /** Setting what a query answered changes no speed. */
  lemma QueryThenSet(speed: nat, n: nat)
    requires 0 < n < 256 && speed <= n
    ensures Query(speed, n) <= 1000
    ensures CalcSpeed(Query(speed, n), 1000, n) == speed
  {
    var v := Query(speed, n);
    QueryBounds(speed, n);
    hide Query, Quotient;
    MulStrict(v, 1001, n);
    RoundedIs(v, 1000, n, speed);
    if speed == 0 {
      MulStrict(v, 1, n);
    }
  }

  lemma QueryBounds(speed: nat, n: nat)
    requires n > 0
    ensures var q := Query(speed, n);
            q * n <= speed * 1000 < q * n + n
  {
  }

  /** And a speed set on the MCS scale is answered less than one step, which is
      1000 / n, away. */
  lemma SetThenQuery(val: nat, n: nat)
    requires 0 < n < 256 && val <= 1000
    ensures Abs(Query(CalcSpeed(val, 1000, n), n) * n - val * n) < 1000
  {
    var s := CalcSpeed(val, 1000, n);
    SpeedRange(val, 1000, n);
    StepError(val, n);
    hide CalcSpeed;
    QueryBounds(s, n);
    hide Query;
  }

  lemma StepError(val: nat, n: nat)
    requires 0 < n < 256 && val <= 1000
    ensures -500 <= CalcSpeed(val, 1000, n) * 1000 - val * n < 1000
  {
    Rounded(val, 1000, n);
    hide Quotient;
    MulMono(0, val, n);
    if val > 0 { MulMono(1, val, n); }
  }

  // ---------- the queue of locomotives to serve ----------

  const QUEUELEN := 200

  /** gl_enqueue: a locomotive already waiting is not queued again, and one of the
      two hundred places stays unused. */
  function Queued(q: seq<int>, p: int): seq<int> {
    if |q| >= QUEUELEN - 1 then q else PacketPool.Register(q, p)
  }

  datatype Event = Put(p: int) | Get

  function QueueAfter(q: seq<int>, es: seq<Event>): seq<int>
    decreases |es|
  {
    if es == [] then q
    else
      QueueAfter(match es[0]
                 case Put(p) => Queued(q, p)
                 case Get => if q == [] then q else q[1..], es[1..])
  }

  predicate InTable(es: seq<Event>, max: nat) {
    forall k :: 0 <= k < |es| && es[k].Put? ==> 1 <= es[k].p <= max
  }

  /** No locomotive ever waits twice. As long as there are at most 199 of them, no
      command is dropped: whatever came before, a locomotive is waiting after it
      was put into the queue. */
  lemma {:induction false} NeverDropped(q: seq<int>, es: seq<Event>, max: nat, p: int)
    requires PacketPool.Distinct(q) && PacketPool.InRange(q, max) && InTable(es, max)
    requires 1 <= p <= max < QUEUELEN
    ensures var r := QueueAfter(q, es);
            && PacketPool.Distinct(r) && PacketPool.InRange(r, max) && |r| <= max
            && p in Queued(r, p)
    decreases |es|
  {
    if es == [] {
      PacketPool.Pigeonhole(q, max);
      if |q| == max {
        AllPresent(q, max, p);
      }
    } else {
      var next := match es[0]
        case Put(x) => Queued(q, x)
        case Get => if q == [] then q else q[1..];
      NeverDropped(next, es[1..], max, p);
    }
  }

  /** As many distinct numbers as there are in the range are all of them. */
  lemma AllPresent(q: seq<int>, max: nat, p: int)
    requires PacketPool.Distinct(q) && PacketPool.InRange(q, max) && |q| == max && 1 <= p <= max
    ensures p in q
  {
    if p !in q {
      PacketPool.Pigeonhole(q + [p], max);
    }
  }

  /** A waiting locomotive is served after at most as many takes as there are
      places before it, whatever is put meanwhile. */
  lemma {:induction false} ServedInTurn(q: seq<int>, es: seq<Event>, i: nat)
    requires i < |q| && Gets(es) == i
    ensures QueueAfter(q, es) != [] && QueueAfter(q, es)[0] == q[i]
    decreases |es|
  {
    if es != [] {
      match es[0]
      case Put(p) => ServedInTurn(Queued(q, p), es[1..], i);
      case Get => ServedInTurn(q[1..], es[1..], i - 1);
    }
  }

  function Gets(es: seq<Event>): nat {
    if es == [] then 0 else (if es[0].Get? then 1 else 0) + Gets(es[1..])
  }

  class GlQueue {
    const queue: array<int>
    var inn: nat
    var out: nat

    ghost predicate Valid()
      reads this, queue
    {
      queue.Length == QUEUELEN && inn < QUEUELEN && out < QUEUELEN
    }

    /** The entries from out to position i of the ring. */
    ghost function Span(i: nat): (s: seq<int>)
      requires Valid() && i < QUEUELEN
      reads this, queue
    {
      if i >= out then queue[out..i] else queue[out..] + queue[..i]
    }

    ghost function Contents(): (s: seq<int>)
      requires Valid()
      reads this, queue
    {
      Span(inn)
    }

    constructor ()
      ensures Valid() && fresh(queue) && Contents() == []
    {
      queue := new int[QUEUELEN];
      inn, out := 0, 0;
    }

    method IsFull() returns (full: bool)
      requires Valid()
      ensures full <==> |Contents()| >= QUEUELEN - 1
    {
      full := (if inn >= out then inn - out else QUEUELEN + inn - out) >= QUEUELEN - 1;
    }

    method Contains(p: int) returns (found: bool)
      requires Valid()
      ensures found <==> p in Contents()
    {
      var i: nat := out;
      while i != inn
        invariant i < QUEUELEN && p !in Span(i)
        invariant (inn >= out ==> out <= i <= inn) && (inn < out ==> out <= i || i <= inn)
        decreases if i <= inn then inn - i else QUEUELEN + inn - i
      {
        if queue[i] == p {
          return true;
        }
        i := i + 1;
        if i == QUEUELEN { i := 0; }
      }
      return false;
    }

    method Enqueue(p: int)
      requires Valid()
      modifies this`inn, queue
      ensures Valid() && Contents() == Queued(old(Contents()), p)
    {
      var full := IsFull();
      if full { return; }
      var found := Contains(p);
      if found { return; }
      queue[inn] := p;
      inn := inn + 1;
      if inn == QUEUELEN { inn := 0; }
    }

    /** dequeueNextGL */
    method Dequeue() returns (p: Option<int>)
      requires Valid()
      modifies this`out
      ensures Valid()
      ensures old(Contents()) == [] ==> p.None? && Contents() == []
      ensures old(Contents()) != [] ==>
                p == Some(old(Contents())[0]) && Contents() == old(Contents())[1..]
    {
      if inn == out { return None; }
      p := Some(queue[out]);
      out := out + 1;
      if out == QUEUELEN { out := 0; }
    }
  }

  /** On the MCS scale nothing overflows. */
  lemma McsFits(val: nat, n: nat)
    requires n < 256
    ensures MachineSpeed(val, 1000, n) == CalcSpeed(val, 1000, n)
  {
    var v := Clamped(val, 1000);
    MulMono(v, 1000, n);
    MulMono(0, v, n);
    MachineIs(val, 1000, n);
  }

  /** handle_mcs_speed for entry index of the locomotive table, or for no entry: a
      value sets the speed and queues the locomotive if that changed its step; a
      negative one only asks. */
  method HandleMcsSpeed(p: Loco?, index: int, queue: GlQueue, val: int) returns (answer: int)
    requires p != null ==> p.Valid() && p.n_fs > 0
    requires queue.Valid()
    modifies if p != null then {p} else {}, queue`inn, queue.queue
    ensures queue.Valid()
    ensures p == null ==> answer == -1 && queue.Contents() == old(queue.Contents())
    ensures p != null ==>
              && p.Valid() && unchanged(p`id, p`protocolversion, p`n_fs, p`n_func, p`direction, p`cacheddirection)
              && unchanged(p`funcs, p`funcschange)
              && answer == (if val >= 0 then val else Query(p.speed, p.n_fs))
              && p.speed == (if val >= 0 then CalcSpeed(val, 1000, p.n_fs) else old(p.speed)) && p.speed <= 255
              && (p.speedchange == if p.speed == old(p.speed) then old(p.speedchange) else old(p.speedchange) | SCSPEED)
              && (queue.Contents() == if p.speed == old(p.speed) then old(queue.Contents())
                                      else Queued(old(queue.Contents()), index))
  {
    hide CalcSpeed, MachineSpeed;
    if p == null { return -1; }
    answer := val;
    if val >= 0 {
      var oldspeed := p.speed;
      SpeedRange(val, 1000, p.n_fs);
      McsFits(val, p.n_fs);
      p.speed := MachineSpeed(val, 1000, p.n_fs) % 256;
      if p.speed != oldspeed {
        p.speedchange := p.speedchange | SCSPEED;
        queue.Enqueue(index);
      }
    } else {
      answer := p.speed * 1000 / p.n_fs;
    }
  }
}
