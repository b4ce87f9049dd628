/** Accessory commands: the ring queue that feeds them to the signal thread and the
    four-step sequencer that turns each into on, on or on, on, off, off telegrams. */
module Accessory {
  import opened Options
  import opened Sequences

  const QUEUELEN := 50

  const SRCP_OK := 200
  const SRCP_WRONGVALUE := 412
  const SRCP_TEMPORARILYPROHIBITED := 413

  datatype Command = Command(protocol: char, id: int, port: int, action: int, activetime: int)

  /** What the encoders of the protocols M and N accept; there are no others. */
  predicate IsSent(c: Command) {
    && 0 <= c.port <= 1 && 0 <= c.action <= 1
    && ((c.protocol == 'M' && 1 <= c.id <= 324) || (c.protocol == 'N' && 1 <= c.id <= 2044))
  }

  /** What goes to the track. */
  datatype Telegram = Telegram(protocol: char, id: int, port: int, action: int)

  function Sent(c: Command): seq<Telegram> {
    if IsSent(c) then [Telegram(c.protocol, c.id, c.port, c.action)] else []
  }

  function Off(c: Command): Command { c.(action := 0) }

  // ---------- the ring queue ----------

  class GaQueue {
    const queue: array<Command>
    var inn: nat
    var out: nat
    const number_ga: int
    const protocols: array<char>     // gastate[addr].protocol

    ghost predicate Valid()
      reads this, queue, protocols
    {
      && queue.Length == QUEUELEN && inn < QUEUELEN && out < QUEUELEN
      && 0 <= number_ga < protocols.Length
    }

    function Len(): (n: nat)
      requires inn < QUEUELEN && out < QUEUELEN
      reads this
      ensures n < QUEUELEN
    {
      if inn >= out then inn - out else QUEUELEN + inn - out
    }

    /** The queued commands, oldest first. */
    ghost function Contents(): (s: seq<Command>)
      requires Valid()
      reads this, queue, protocols
      ensures |s| == Len()
    {
      if inn >= out then queue[out..inn] else queue[out..] + queue[..inn]
    }

    constructor (ga: array<char>)
      requires ga.Length > 0
      ensures Valid() && fresh(queue) && protocols == ga && number_ga == ga.Length - 1 && Contents() == []
    {
      queue := new Command[QUEUELEN](_ => Command('P', 0, 0, 0, 0));
      inn, out := 0, 0;
      protocols := ga;
      number_ga := ga.Length - 1;
    }

    /** enqueueGA: appends the command with the protocol the accessory has now, or
        refuses; one of the fifty places stays unused. */
    method Enqueue(addr: int, port: int, action: int, activetime: int) returns (rc: int)
      requires Valid()
      modifies this`inn, queue
      ensures Valid()
      ensures rc == if !(0 < addr <= number_ga) then SRCP_WRONGVALUE
                    else if |old(Contents())| == QUEUELEN - 1 then SRCP_TEMPORARILYPROHIBITED else SRCP_OK
      ensures Contents() == if rc == SRCP_OK then old(Contents()) + [Command(protocols[addr], addr, port, action, activetime)]
                            else old(Contents())
    {
      if 0 < addr <= number_ga {
        if Len() >= QUEUELEN - 1 {
          return SRCP_TEMPORARILYPROHIBITED;
        }
        queue[inn] := Command(protocols[addr], addr, port, action, activetime);
        inn := inn + 1;
        if inn == QUEUELEN { inn := 0; }
      } else {
        return SRCP_WRONGVALUE;
      }
      return SRCP_OK;
    }

    method IsEmpty() returns (b: bool)
      requires Valid()
      ensures b <==> Contents() == []
    {
      b := inn == out;
    }

    /** dequeueNextGA: the oldest command, or none. */
    method Dequeue() returns (c: Option<Command>)
      requires Valid()
      modifies this`out
      ensures Valid()
      ensures old(Contents()) == [] ==> c == None && Contents() == []
      ensures old(Contents()) != [] ==> c == Some(old(Contents())[0]) && Contents() == old(Contents())[1..]
    {
      if inn == out { return None; }
      c := Some(queue[out]);
      out := out + 1;
      if out == QUEUELEN { out := 0; }
    }
  }

  // ---------- the sequencer ----------

  /** gastep with the command it works on; cur matters in steps 1 to 3 only. */
  datatype Seq = Seq(step: nat, cur: Command)

  predicate Inv(s: Seq) {
    s.step < 4 && (s.step == 3 ==> s.cur.action == 0)
  }

  /** One pass of the accessory part of the main loop: queue q, and whether the
      activation time of the current command is over. Returns the new state, the
      rest of the queue and the telegrams sent. */
  function Pass(s: Seq, q: seq<Command>, elapsed: bool): (r: (Seq, seq<Command>, seq<Telegram>))
    requires Inv(s)
    ensures Inv(r.0)
  {
    if s.step == 0 then
      if q == [] then (s, q, []) else (Seq(1, q[0]), q[1..], Sent(q[0]))
    else if s.step == 1 then
      (Seq(if s.cur.activetime <= 0 then 0 else 2, s.cur), q, Sent(s.cur))
    else if s.step == 2 then
      if !elapsed then (s, q, []) else (Seq(3, Off(s.cur)), q, Sent(Off(s.cur)))
    else (Seq(0, s.cur), q, Sent(s.cur))
  }

  class Sequencer {
    var gastep: nat
    var gatmp: Command

    function State(): Seq
      reads this
    {
      Seq(gastep, gatmp)
    }

    constructor ()
      ensures gastep == 0
    {
      gastep := 0;
      gatmp := Command('P', 0, 0, 0, 0);
    }

    /** comp_maerklin_ms or comp_nmra_accessory, by protocol. */
    method Emit() returns (t: seq<Telegram>)
      ensures t == Sent(gatmp)
    {
      t := [];
      if gatmp.action < 0 || gatmp.action > 1 || gatmp.port < 0 || gatmp.port > 1 || gatmp.id < 1 {
        return;
      }
      if gatmp.protocol == 'M' {
        if gatmp.id <= 324 { t := [Telegram('M', gatmp.id, gatmp.port, gatmp.action)]; }
      } else if gatmp.protocol == 'N' {
        if gatmp.id <= 2044 { t := [Telegram('N', gatmp.id, gatmp.port, gatmp.action)]; }
      }
    }

    /** The switch over gastep, with its fall-through cases. */
    method Handle(queue: GaQueue, elapsed: bool) returns (t: seq<Telegram>)
      requires Inv(State()) && queue.Valid()
      modifies this, queue`out
      ensures Inv(State()) && queue.Valid()
      ensures (State(), queue.Contents(), t) == Pass(old(State()), old(queue.Contents()), elapsed)
    {
      t := [];
      if gastep == 0 {
        var empty := queue.IsEmpty();
        if empty { return; }
        var c := queue.Dequeue();
        gatmp := c.value;
      }
      if gastep == 0 || gastep == 1 {
        t := Emit();
        gastep := gastep + 1;
        if gastep == 2 && gatmp.activetime <= 0 {
          gastep := 0;
        }
        return;
      }
      if gastep == 2 {
        if !elapsed { return; }
        gatmp := gatmp.(action := 0);
      }
      t := Emit();
      gastep := gastep + 1;
      if gastep == 4 {
        gastep := 0;
      }
    }
  }

  // ---------- runs ----------

  /** The world of the sequencer: an accepted command enters the queue; a loop pass
      reaches the accessory part only with power on. */
  datatype Event = Accept(c: Command) | LoopPass(power: bool, elapsed: bool)

  datatype World = World(s: Seq, q: seq<Command>, trace: seq<Telegram>)

  function Next(w: World, e: Event): (r: World)
    requires Inv(w.s)
    ensures Inv(r.s)
  {
    match e
    case Accept(c) => w.(q := w.q + [c])
    case LoopPass(power, elapsed) =>
      if !power then w
      else
        var (s, q, t) := Pass(w.s, w.q, elapsed);
        World(s, q, w.trace + t)
  }

  function Run(w: World, es: seq<Event>): (r: World)
    requires Inv(w.s)
    ensures Inv(r.s)
    decreases |es|
  {
    if es == [] then w else Run(Next(w, es[0]), es[1..])
  }

  /** The commands accepted in a run, in order. */
  function Accepted(es: seq<Event>): seq<Command> {
    if es == [] then [] else (if es[0].Accept? then [es[0].c] else []) + Accepted(es[1..])
  }

  /** All telegrams of a command: twice on, and twice off if it is timed. */
  function Telegrams(c: Command): seq<Telegram> {
    Sent(c) + Sent(c) + if c.activetime > 0 then Sent(Off(c)) + Sent(Off(c)) else []
  }

  /** For an address and a port of the protocol: twice the telegram of the command if
      its action is 0 or 1, and twice the one that switches off if it is timed; and
      nothing for any other address, port or protocol. */
  lemma TelegramsAre(c: Command)
    ensures var on, off := Telegram(c.protocol, c.id, c.port, c.action), Telegram(c.protocol, c.id, c.port, 0);
            var known := ((c.protocol == 'M' && 1 <= c.id <= 324) || (c.protocol == 'N' && 1 <= c.id <= 2044))
                         && (c.port == 0 || c.port == 1);
            && (known && (c.action == 0 || c.action == 1) ==>
                  Telegrams(c) == if c.activetime > 0 then [on, on, off, off] else [on, on])
            && (known && c.action != 0 && c.action != 1 ==>
                  Telegrams(c) == if c.activetime > 0 then [off, off] else [])
            && (!known ==> Telegrams(c) == [])
  {
    assert |Telegrams(c)| <= 4;
  }

  function AllTelegrams(cs: seq<Command>): seq<Telegram> {
    if cs == [] then [] else Telegrams(cs[0]) + AllTelegrams(cs[1..])
  }

  /** The telegrams of the current command that are still to come. */
  function Rest(s: Seq): seq<Telegram>
    requires Inv(s)
  {
    if s.step == 0 then []
    else if s.step == 1 then Sent(s.cur) + if s.cur.activetime > 0 then Sent(Off(s.cur)) + Sent(Off(s.cur)) else []
    else if s.step == 2 then Sent(Off(s.cur)) + Sent(Off(s.cur))
    else Sent(s.cur)
  }

  /** What has been sent, what the current command still needs, and the telegrams of
      the queued commands. */
  function Plan(w: World): seq<Telegram>
    requires Inv(w.s)
  {
    w.trace + (Rest(w.s) + AllTelegrams(w.q))
  }

  lemma {:induction false} AllConcat(a: seq<Command>, b: seq<Command>)
    ensures AllTelegrams(a + b) == AllTelegrams(a) + AllTelegrams(b)
  {
    if a == [] {
      assert a + b == b;
    } else {
      assert (a + b)[1..] == a[1..] + b;
      AllConcat(a[1..], b);
    }
  }

  /** A pass moves telegrams from the plan to the trace, in order, and changes
      nothing else about it. */
  lemma PassKeepsPlan(w: World, power: bool, elapsed: bool)
    requires Inv(w.s)
    ensures Plan(Next(w, LoopPass(power, elapsed))) == Plan(w)
    ensures w.trace <= Next(w, LoopPass(power, elapsed)).trace
  {
    if power {
      var (s, q, t) := Pass(w.s, w.q, elapsed);
      PassPlan(w.s, w.q, elapsed);
      Assoc(w.trace, t, Rest(s) + AllTelegrams(q));
    }
  }

  lemma PassPlan(s: Seq, q: seq<Command>, elapsed: bool)
    requires Inv(s)
    ensures var (s', q', t) := Pass(s, q, elapsed);
            t + (Rest(s') + AllTelegrams(q')) == Rest(s) + AllTelegrams(q)
  {
    var (s', q', t) := Pass(s, q, elapsed);
    Assoc(t, Rest(s'), AllTelegrams(q'));
    if s.step == 0 && q != [] {
      Assoc(Sent(q[0]), Sent(q[0]), if q[0].activetime > 0 then Sent(Off(q[0])) + Sent(Off(q[0])) else []);
      assert [] + AllTelegrams(q) == AllTelegrams(q);
      hide Sent;
    } else {
      assert s.step == 3 ==> Off(s.cur) == s.cur;
      hide Sent, AllTelegrams;
      assert t + Rest(s') == Rest(s);
    }
  }

  lemma AcceptExtendsPlan(w: World, c: Command)
    requires Inv(w.s)
    ensures Plan(Next(w, Accept(c))) == Plan(w) + Telegrams(c)
  {
    hide AllTelegrams, Telegrams, Rest;
    AllConcat(w.q, [c]);
    OneCommand(c, []);
    assert [c] + [] == [c];
    assert Telegrams(c) + AllTelegrams([]) == Telegrams(c) by { NoCommands(); }
    var all := AllTelegrams(w.q);
    Assoc(Rest(w.s), all, Telegrams(c));
    Assoc(w.trace, Rest(w.s) + all, Telegrams(c));
  }

  lemma NoCommands()
    ensures AllTelegrams([]) == []
  {
  }

  lemma OneCommand(c: Command, cs: seq<Command>)
    ensures AllTelegrams([c] + cs) == Telegrams(c) + AllTelegrams(cs)
  {
    assert ([c] + cs)[1..] == cs;
  }

  lemma AcceptedFirst(e: Event, es: seq<Event>)
    ensures Accepted([e] + es) == (if e.Accept? then [e.c] else []) + Accepted(es)
  {
    assert ([e] + es)[1..] == es;
  }

  /** For any interleaving of accepted commands, power-off pauses and loop passes,
      what has been sent is a prefix of the first-in-first-out concatenation of the
      telegrams of the accepted commands; the missing part is exactly what the
      current command and the queue still hold. */
  lemma {:induction false} TraceIsFifo(w: World, es: seq<Event>)
    requires Inv(w.s)
    ensures Plan(Run(w, es)) == Plan(w) + AllTelegrams(Accepted(es))
    ensures w.trace <= Run(w, es).trace
    decreases |es|
  {
    if es == [] {
      assert Plan(w) + [] == Plan(w);
    } else {
      hide Plan, Telegrams, AllTelegrams, Accepted;
      var v := Next(w, es[0]);
      TraceIsFifo(v, es[1..]);
      var later := AllTelegrams(Accepted(es[1..]));
      assert es == [es[0]] + es[1..];
      AcceptedFirst(es[0], es[1..]);
      match es[0]
      case Accept(c) =>
        AcceptExtendsPlan(w, c);
        OneCommand(c, Accepted(es[1..]));
        Assoc(Plan(w), Telegrams(c), later);
      case LoopPass(power, elapsed) =>
        PassKeepsPlan(w, power, elapsed);
        assert [] + Accepted(es[1..]) == Accepted(es[1..]);
    }
  }

  lemma TraceFromStart(cur: Command, es: seq<Event>)
    ensures var r := Run(World(Seq(0, cur), [], []), es);
            && r.trace <= AllTelegrams(Accepted(es))
            && (r.s.step == 0 && r.q == [] ==> r.trace == AllTelegrams(Accepted(es)))
  {
    var w := World(Seq(0, cur), [], []);
    TraceIsFifo(w, es);
    assert Plan(w) == [];
    assert [] + AllTelegrams(Accepted(es)) == AllTelegrams(Accepted(es));
    var r := Run(w, es);
    if r.s.step == 0 && r.q == [] {
      assert Plan(r) == r.trace;
    }
  }

  // ---------- no activation before the previous switch-off ----------

  /** A timed command is switched on; its off telegrams are still due. */
  predicate OffDue(s: Seq) {
    s.step in {1, 2, 3} && s.cur.activetime > 0
  }

  /** A telegram for another command is sent only when nothing is due: the pass that
      takes a new command from the queue starts with everything switched off, and
      once a timed command is on, the queue is left alone until it is off. */
  lemma NoOverlap(w: World, power: bool, elapsed: bool)
    requires Inv(w.s)
    ensures var v := Next(w, LoopPass(power, elapsed));
            && (v.q != w.q ==> !OffDue(w.s))
            && (OffDue(w.s) && !OffDue(v.s) ==> w.s.step == 3 && v.trace == w.trace + Sent(Off(w.s.cur)))
  {
    assert w.s.step == 3 ==> Off(w.s.cur) == w.s.cur;
  }

  /** A pass sends one telegram at most, and none without power. */
  lemma OneAtATime(w: World, power: bool, elapsed: bool)
    requires Inv(w.s)
    ensures |Next(w, LoopPass(power, elapsed)).trace| <= |w.trace| + if power then 1 else 0
  {
  }

  /** After its second telegram a timed command stays on, and everything waits,
      until a pass with power finds that its time is over. */
  lemma {:induction false} StaysOn(w: World, es: seq<Event>)
    requires w.s.step == 2
    requires forall i :: 0 <= i < |es| ==> es[i].Accept? || !es[i].power || !es[i].elapsed
    ensures Run(w, es) == w.(q := w.q + Accepted(es))
    decreases |es|
  {
    if es == [] {
      assert w.q + [] == w.q;
    } else {
      var v := Next(w, es[0]);
      assert v == w.(q := if es[0].Accept? then w.q + [es[0].c] else w.q) by { assert w.trace + [] == w.trace; }
      StaysOn(v, es[1..]);
      assert es == [es[0]] + es[1..];
      AcceptedFirst(es[0], es[1..]);
      if es[0].Accept? { Assoc(w.q, [es[0].c], Accepted(es[1..])); }
    }
  }

  /** And then the next two passes with power switch it off. */
  lemma SwitchesOff(w: World)
    requires w.s.step == 2
    ensures var off, v := Sent(Off(w.s.cur)), Run(w, [LoopPass(true, true), LoopPass(true, false)]);
            v.s.step == 0 && v.q == w.q && v.trace == w.trace + off + off
  {
    var es := [LoopPass(true, true), LoopPass(true, false)];
    assert es[1..] == [LoopPass(true, false)] && es[1..][1..] == [];
  }

  // ---------- nothing gets stuck ----------

  /** Passes that the current command and the queue still need. */
  function Needed(s: Seq, q: seq<Command>): nat
    requires Inv(s)
  {
    (if s.step == 0 then 0 else 4 - s.step) + 4 * |q|
  }

  /** With power on and the times over, every pass brings the end of all queued
      commands closer. */
  lemma {:induction false} Drains(w: World, n: nat)
    requires Inv(w.s) && n >= Needed(w.s, w.q)
    ensures var r := Run(w, Passes(n));
            r.s.step == 0 && r.q == [] && r.trace == Plan(w)
    decreases n
  {
    if n == 0 {
      assert Plan(w) == w.trace;
    } else {
      var e := LoopPass(true, true);
      assert Passes(n)[0] == e && Passes(n)[1..] == Passes(n - 1);
      PassKeepsPlan(w, true, true);
      Drains(Next(w, e), n - 1);
    }
  }

  function Passes(n: nat): seq<Event> {
    if n == 0 then [] else [LoopPass(true, true)] + Passes(n - 1)
  }
}
