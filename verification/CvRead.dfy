/** Reading configuration variables of an mfx decoder: blocks of up to four bytes,
    three attempts each, and the collection of reply bytes that arrive over CAN. */
module CvRead {
  import opened BitBuffer
  import opened MfxCrc
  import opened Options
  import opened Sequences
  import Bits
  import MfxPacket
  import MfxSender

  const CV_SIZE := 1024
  const CVINDEX_SIZE := 64
  const MAX_RDS_TRIALS := 3

  /** mfxread: what is still to be read. */
  datatype Job = Job(addr: nat, cv: nat, index: nat, left: int, tries: nat)

  datatype Outcome = Reply(data: seq<bv8>) | Timeout

  /** The bytes of a report to the clients: CV line and index packed into two bytes. */
  datatype Report = Value(addr: nat, hi: nat, lo: nat, value: bv8) | Failure(addr: nat, hi: nat, lo: nat)

  /** Waiting for the answer to the block of a job; or the end: all read, given up
      with a report, or no further query sent and nothing reported. */
  datatype Phase = Waiting(job: Job) | Done | GivenUp | Silent

  /** Bytes in a block: the packet type for 1, 2 and every other number. */
  function BlockBytes(left: int): nat {
    if left == 1 then 1 else if left == 2 then 2 else 4
  }

  /** What readCV checks before it sends. */
  predicate Accepts(j: Job) {
    j.cv < CV_SIZE && j.index < CVINDEX_SIZE
  }

  function Hi(cv: nat, index: nat): nat { (cv / 256 + 4 * index) % 256 }

  function Lo(cv: nat): nat { cv % 256 }

  function Values(addr: nat, cv: nat, index: nat, data: seq<bv8>): seq<Report>
    decreases |data|
  {
    if data == [] then []
    else [Value(addr, Hi(cv, index), Lo(cv), data[0])] + Values(addr, cv, index + 1, data[1..])
  }

  // ---------- the handlers, as functions ----------

  function NextBlock(j: Job): Job {
    j.(index := j.index + 4, left := j.left - 4, tries := 0)
  }

  function Resumed(j: Job): Phase {
    if Accepts(j) then Waiting(j) else Silent
  }

  function After(j: Job, o: Outcome): Phase {
    match o
    case Reply(_) => if j.left - 4 > 0 then Resumed(NextBlock(j)) else Done
    case Timeout => if j.tries + 1 < MAX_RDS_TRIALS then Resumed(j.(tries := j.tries + 1)) else GivenUp
  }

  function Says(j: Job, o: Outcome): seq<Report> {
    match o
    case Reply(data) => Values(j.addr, j.cv, j.index, data)
    case Timeout => if j.tries + 1 < MAX_RDS_TRIALS then [] else [Failure(j.addr, Hi(j.cv, j.index), Lo(j.cv))]
  }

  /** The state mfxread with its handlers. */
  class CvReader {
    var addr: nat
    var cvline: nat
    var cvindex: nat
    var cvnmbr: int
    var repcount: nat
    var resumeSM: bool

    function State(): Job
      reads this
    {
      Job(addr, cvline, cvindex, cvnmbr, repcount)
    }

    constructor ()
      ensures !resumeSM
    {
      addr, cvline, cvindex, cvnmbr, repcount, resumeSM := 0, 0, 0, 0, 0, false;
    }

    /** smMfxGetCV: 0 when the first query was sent, -1 when it is refused, -2
        when the track has no power. */
    method Start(power: bool, address: nat, cv: nat, index: nat, nmbr: int) returns (rc: int)
      modifies this
      ensures rc == if !power then -2 else if Resumed(State()).Waiting? then 0 else -1
      ensures State() == if power then Job(address, cv, index, nmbr, 0) else old(State())
      ensures resumeSM == old(resumeSM)
    {
      if !power { return -2; }
      addr, cvline, cvindex, cvnmbr, repcount := address, cv, index, nmbr, 0;
      var sent := ReadCv();
      rc := if sent then 0 else -1;
    }

    /** readCV: whether a query is sent. */
    method ReadCv() returns (sent: bool)
      ensures sent <==> Resumed(State()) == Waiting(State())
    {
      sent := !(cvline >= CV_SIZE || cvindex >= CVINDEX_SIZE);
    }

    /** One report per data byte. */
    method ReportValues(data: seq<bv8>) returns (reports: seq<Report>)
      ensures reports == Values(addr, cvline, cvindex, data)
    {
      hide Hi, Lo;
      reports := [];
      for i := 0 to |data|
        invariant reports + Values(addr, cvline, cvindex + i, data[i..]) == Values(addr, cvline, cvindex, data)
      {
        assert data[i..][1..] == data[i + 1..];
        reports := reports + [Value(addr, Hi(cvline, cvindex + i), Lo(cvline), data[i])];
      }
    }

    /** sendMFXreadCVresult */
    method Result(data: seq<bv8>) returns (reports: seq<Report>)
      modifies this
      ensures reports == Says(old(State()), Reply(data))
      ensures var p := After(old(State()), Reply(data));
              && (p == Done <==> resumeSM == old(resumeSM) && cvnmbr <= 0)
              && (p != Done ==> resumeSM && p == Resumed(State()))
    {
      reports := ReportValues(data);
      hide Values;
      cvnmbr := cvnmbr - 4;
      if cvnmbr > 0 {
        cvindex := cvindex + 4;
        repcount := 0;
        resumeSM := true;
      }
    }

    /** handleMFXtimeout for a read packet */
    method TimedOut() returns (reports: seq<Report>)
      modifies this
      ensures reports == Says(old(State()), Timeout)
      ensures var p := After(old(State()), Timeout);
              && State() == old(State()).(tries := old(repcount) + 1)
              && (p != GivenUp <==> repcount < MAX_RDS_TRIALS)
              && (p != GivenUp ==> resumeSM && p == Resumed(State()))
    {
      reports := [];
      repcount := repcount + 1;
      if repcount < MAX_RDS_TRIALS {
        resumeSM := true;
      } else {
        reports := [Failure(addr, Hi(cvline, cvindex), Lo(cvline))];
      }
    }

    /** The main loop takes the flag once and sends the query again. */
    method Resume() returns (sent: bool)
      requires resumeSM
      modifies this`resumeSM
      ensures !resumeSM && (sent <==> Resumed(State()) == Waiting(State()))
    {
      resumeSM := false;
      sent := ReadCv();
    }
  }

  // ---------- runs ----------

  function RunPhase(p: Phase, outs: seq<Outcome>): Phase
    decreases |outs|
  {
    if outs == [] || !p.Waiting? then p else RunPhase(After(p.job, outs[0]), outs[1..])
  }

  function RunReports(p: Phase, outs: seq<Outcome>): seq<Report>
    decreases |outs|
  {
    if outs == [] || !p.Waiting? then []
    else Says(p.job, outs[0]) + RunReports(After(p.job, outs[0]), outs[1..])
  }

  /** The bytes received in a run. */
  function RunData(p: Phase, outs: seq<Outcome>): seq<bv8>
    decreases |outs|
  {
    if outs == [] || !p.Waiting? then []
    else (if outs[0].Reply? then outs[0].data else []) + RunData(After(p.job, outs[0]), outs[1..])
  }

  /** A reply has as many bytes as the packet type asks for. */
  predicate Fits(p: Phase, outs: seq<Outcome>)
    decreases |outs|
  {
    outs == [] || !p.Waiting? ||
    ((outs[0].Reply? ==> |outs[0].data| == BlockBytes(p.job.left)) && Fits(After(p.job, outs[0]), outs[1..]))
  }

  /** Bytes that a complete read delivers. */
  function Total(left: int): nat
    decreases if left > 0 then left else 0
  {
    if left > 4 then 4 + Total(left - 4) else BlockBytes(left)
  }

  function Blocks(left: int): nat
    decreases if left > 0 then left else 0
  {
    if left > 4 then 1 + Blocks(left - 4) else 1
  }

  /** One extra byte when n mod 4 is 3, and four bytes when none were asked for. */
  lemma {:induction false} TotalIs(n: int)
    ensures Total(n) == if n <= 0 then 4 else if n % 4 == 3 then n + 1 else n
    ensures Blocks(n) == if n <= 0 then 1 else (n + 3) / 4
    decreases if n > 0 then n else 0
  {
    if n > 4 { TotalIs(n - 4); }
  }

  /** What a run from job j must have come to, when it is in phase p after these
      reports and bytes. */
  ghost predicate Sound(j: Job, p: Phase, reports: seq<Report>, data: seq<bv8>) {
    var next := j.index + |data|;
    && reports == Values(j.addr, j.cv, j.index, data) +
                  (if p.GivenUp? then [Failure(j.addr, Hi(j.cv, next), Lo(j.cv))] else [])
    && match p
       case Done => |data| == Total(j.left)
       case GivenUp => |data| % 4 == 0 && |data| < Total(j.left) && next < CVINDEX_SIZE
       case Silent => |data| % 4 == 0 && |data| < Total(j.left) && next >= CVINDEX_SIZE
       case Waiting(k) => k.index == next && k.tries < MAX_RDS_TRIALS && |data| < Total(j.left) && Accepts(k)
  }

  ghost predicate SoundRun(j: Job, outs: seq<Outcome>) {
    Sound(j, RunPhase(Waiting(j), outs), RunReports(Waiting(j), outs), RunData(Waiting(j), outs))
  }

  lemma {:induction false} ValuesConcat(addr: nat, cv: nat, index: nat, a: seq<bv8>, b: seq<bv8>)
    ensures Values(addr, cv, index, a + b) == Values(addr, cv, index, a) + Values(addr, cv, index + |a|, b)
    decreases |a|
  {
    if a == [] {
      assert a + b == b;
    } else {
      assert (a + b)[1..] == a[1..] + b;
      ValuesConcat(addr, cv, index + 1, a[1..], b);
    }
  }

  /** Whatever pattern of replies and timeouts: the reports name consecutive
      indices in order, without gap or repeat, each with the byte received for it;
      a run ends with everything read, with one failure report at the block that
      failed, or silently at a block index of 64 and more. */
  lemma {:induction false} ReadsInOrder(j: Job, outs: seq<Outcome>)
    requires Accepts(j) && j.tries < MAX_RDS_TRIALS && Fits(Waiting(j), outs)
    ensures SoundRun(j, outs)
    decreases |outs|
  {
    if outs == [] {
      TotalStep(j.left);
    } else {
      hide Values, Total, Hi, Lo, Sound;
      var p, rest := After(j, outs[0]), outs[1..];
      var reports, data := RunReports(p, rest), RunData(p, rest);
      if p.Waiting? { ReadsInOrder(p.job, rest); }
      if outs[0].Reply? {
        SoundReply(j, outs[0].data, RunPhase(p, rest), reports, data);
      } else {
        assert [] + data == data && [] + reports == reports;
        SoundTimeout(j, RunPhase(p, rest), reports, data);
      }
    }
  }

  lemma SoundReply(j: Job, d: seq<bv8>, p: Phase, reports: seq<Report>, data: seq<bv8>)
    requires |d| == BlockBytes(j.left)
    requires if j.left - 4 <= 0 then p == Done && reports == [] && data == []
             else if Accepts(NextBlock(j)) then Sound(NextBlock(j), p, reports, data)
             else p == Silent && reports == [] && data == [] && j.index + 4 >= CVINDEX_SIZE
    ensures Sound(j, p, Values(j.addr, j.cv, j.index, d) + reports, d + data)
  {
    TotalStep(j.left);
    hide Values, Total, Hi, Lo;
    var v := Values(j.addr, j.cv, j.index, d);
    if j.left - 4 <= 0 || !Accepts(NextBlock(j)) {
      assert v + [] == v && d + [] == d;
    } else {
      ValuesConcat(j.addr, j.cv, j.index, d, data);
      var f := if p.GivenUp? then [Failure(j.addr, Hi(j.cv, j.index + 4 + |data|), Lo(j.cv))] else [];
      Assoc(v, Values(j.addr, j.cv, j.index + 4, data), f);
    }
  }

  lemma TotalStep(left: int)
    ensures left > 4 ==> Total(left) == 4 + Total(left - 4) && Total(left) > 4
    ensures left <= 4 ==> Total(left) == BlockBytes(left)
  {
  }

  lemma SoundTimeout(j: Job, p: Phase, reports: seq<Report>, data: seq<bv8>)
    requires Accepts(j)
    requires if j.tries + 1 < MAX_RDS_TRIALS then Sound(j.(tries := j.tries + 1), p, reports, data)
             else p == GivenUp && reports == [] && data == []
    ensures Sound(j, p, Says(j, Timeout) + reports, data)
  {
    assert [] + reports == reports;
    if j.tries + 1 >= MAX_RDS_TRIALS {
      assert Values(j.addr, j.cv, j.index, []) == [];
      assert [] + Says(j, Timeout) == Says(j, Timeout) == Says(j, Timeout) + [];
    }
  }

  /** The report of byte k names index + k and carries that byte. */
  lemma {:induction false} ValuesAre(addr: nat, cv: nat, index: nat, data: seq<bv8>)
    ensures |Values(addr, cv, index, data)| == |data|
    ensures forall k :: 0 <= k < |data| ==>
                          Values(addr, cv, index, data)[k] == Value(addr, Hi(cv, index + k), Lo(cv), data[k])
    decreases |data|
  {
    hide Hi, Lo;
    if data != [] {
      ValuesAre(addr, cv, index + 1, data[1..]);
    }
  }

  /** Report by report: byte k of those received is reported at the first index plus
      k, and a read that was given up reports once more, the index it failed at. */
  lemma ReportsAre(j: Job, outs: seq<Outcome>)
    requires Accepts(j) && j.tries < MAX_RDS_TRIALS && Fits(Waiting(j), outs)
    ensures var reports, data := RunReports(Waiting(j), outs), RunData(Waiting(j), outs);
            var given := RunPhase(Waiting(j), outs).GivenUp?;
            && |reports| == |data| + (if given then 1 else 0)
            && (forall k :: 0 <= k < |data| ==>
                              reports[k] == Value(j.addr, Hi(j.cv, j.index + k), Lo(j.cv), data[k]))
            && (given ==> reports[|data|] == Failure(j.addr, Hi(j.cv, j.index + |data|), Lo(j.cv)))
  {
    hide Total, Hi, Lo, RunReports, RunData, RunPhase, Fits, Values;
    ReadsInOrder(j, outs);
    var data := RunData(Waiting(j), outs);
    var values := Values(j.addr, j.cv, j.index, data);
    ValuesAre(j.addr, j.cv, j.index, data);
    assert |values| == |data|;
    if !RunPhase(Waiting(j), outs).GivenUp? { assert values + [] == values; }
    hide Sound;
  }

  /** What the decoder reads of the query for a block, and how many bytes it is to
      send back: 2 to the power of the length code, as many as are expected. */
  lemma QueryAsks(j: Job)
    requires j.addr < 16384 && Accepts(j)
    ensures var code := MfxSender.LengthCode(j.left);
            && MfxPacket.ReadPacket(Closed(MfxPacket.CommandBits(MfxPacket.ReadCv(j.addr, j.cv, j.index, code))))
            == Some(MfxPacket.ReadCv(j.addr, j.cv, j.index, code))
            && Bits.Pow2(code) == BlockBytes(j.left)
            && code == if j.left == 1 then 0 else if j.left == 2 then 1 else 2
  {
    MfxPacket.PacketReadBack(MfxPacket.ReadCv(j.addr, j.cv, j.index, MfxSender.LengthCode(j.left)));
  }

  /** One or two timeouts repeat the query, the third gives up. */
  lemma ThirdGivesUp(j: Job, rest: seq<Outcome>)
    requires Accepts(j) && j.tries == 0
    ensures RunPhase(Waiting(j), [Timeout]) == Waiting(j.(tries := 1))
    ensures RunPhase(Waiting(j), [Timeout, Timeout]) == Waiting(j.(tries := 2))
    ensures RunPhase(Waiting(j), [Timeout, Timeout, Timeout] + rest) == GivenUp
  {
    var j1, j2 := j.(tries := 1), j.(tries := 2);
    assert After(j, Timeout) == Waiting(j1) && After(j1, Timeout) == Waiting(j2) && After(j2, Timeout) == GivenUp;
    assert RunPhase(GivenUp, rest) == GivenUp;
    PhaseStep(j, Timeout, []);
    PhaseStep(j1, Timeout, []);
    PhaseStep(j, Timeout, [Timeout]);
    PhaseStep(j2, Timeout, rest);
    PhaseStep(j1, Timeout, [Timeout] + rest);
    PhaseStep(j, Timeout, [Timeout] + ([Timeout] + rest));
    assert [Timeout] + [] == [Timeout] && [Timeout] + [Timeout] == [Timeout, Timeout];
    assert [Timeout] + ([Timeout] + ([Timeout] + rest)) == [Timeout, Timeout, Timeout] + rest;
    assert RunPhase(Waiting(j1), []) == Waiting(j1) && RunPhase(Waiting(j2), []) == Waiting(j2);
    hide RunPhase, After;
  }

  lemma PhaseStep(j: Job, o: Outcome, rest: seq<Outcome>)
    ensures RunPhase(Waiting(j), [o] + rest) == RunPhase(After(j, o), rest)
  {
    assert ([o] + rest)[1..] == rest;
  }

  /** Where the three timeouts of the block that was given up begin, counted from
      here; those before are counted in tries. */
  lemma {:induction false} LastTimeouts(j: Job, outs: seq<Outcome>) returns (n: int)
    requires Accepts(j) && j.tries < 3 && RunPhase(Waiting(j), outs) == GivenUp
    ensures n + 3 <= |outs| && (n >= 0 || n + j.tries == 0)
    ensures forall i :: 0 <= i < |outs| && n <= i < n + 3 ==> outs[i].Timeout?
    ensures n >= 0 ==> var p := RunPhase(Waiting(j), outs[..n]); p.Waiting? && p.job.tries == 0
    decreases |outs|
  {
    var p := After(j, outs[0]);
    if p.GivenUp? {
      n := -2;
    } else {
      n := LastTimeouts(p.job, outs[1..]);
      n := n + 1;
      if n > 0 {
        assert outs[..n][1..] == outs[1..][..n - 1];
      }
    }
  }

  /** A read is given up only after three timeouts in a row for one block. */
  lemma GivenUpAfterThree(j: Job, outs: seq<Outcome>) returns (n: nat)
    requires Accepts(j) && j.tries == 0 && RunPhase(Waiting(j), outs) == GivenUp
    ensures n + 3 <= |outs| && outs[n].Timeout? && outs[n + 1].Timeout? && outs[n + 2].Timeout?
    ensures var p := RunPhase(Waiting(j), outs[..n]); p.Waiting? && p.job.tries == 0
  {
    hide RunPhase, Accepts;
    n := LastTimeouts(j, outs);
  }

  /** Every block is tried at most three times, so a read is over after at most
      three outcomes per block. */
  lemma {:induction false} ReadEnds(j: Job, outs: seq<Outcome>)
    requires Accepts(j) && j.tries < MAX_RDS_TRIALS
    requires |outs| >= 3 * Blocks(j.left) - j.tries
    ensures !RunPhase(Waiting(j), outs).Waiting?
    decreases |outs|
  {
    var p := After(j, outs[0]);
    if p.Waiting? { ReadEnds(p.job, outs[1..]); }
  }

  // ---------- the silent end ----------

  /** n complete replies. */
  function Replies(left: int, n: nat): seq<Outcome>
    decreases n
  {
    if n == 0 then [] else [Reply(seq(BlockBytes(left), _ => 0))] + Replies(left - 4, n - 1)
  }

  /** Reading with replies alone reaches a refused block whenever there is one. */
  lemma {:induction false} SilentWitness(j: Job)
    requires Accepts(j) && j.tries < MAX_RDS_TRIALS
    requires j.index + 4 * (Blocks(j.left) - 1) >= CVINDEX_SIZE
    ensures var outs := Replies(j.left, Blocks(j.left));
            Fits(Waiting(j), outs) && RunPhase(Waiting(j), outs) == Silent
    decreases if j.left > 0 then j.left else 0
  {
    var outs := Replies(j.left, Blocks(j.left));
    var k := NextBlock(j);
    assert outs[1..] == Replies(j.left - 4, Blocks(j.left - 4));
    if Accepts(k) { SilentWitness(k); }
  }

  lemma {:induction false} NotSilent(j: Job, outs: seq<Outcome>)
    requires Accepts(j) && j.index + 4 * (Blocks(j.left) - 1) < CVINDEX_SIZE
    ensures RunPhase(Waiting(j), outs) != Silent
    decreases |outs|
  {
    if outs != [] {
      var p := After(j, outs[0]);
      if p.Waiting? { NotSilent(p.job, outs[1..]); }
    }
  }

  /** A read is certain to end with full coverage or a failure report exactly when
      its last block starts below index 64. */
  lemma EndsWithReport(j: Job)
    requires Accepts(j) && j.tries == 0
    ensures (forall outs :: Fits(Waiting(j), outs) ==> RunPhase(Waiting(j), outs) != Silent) <==>
            j.index + 4 * (Blocks(j.left) - 1) < CVINDEX_SIZE
  {
    if j.index + 4 * (Blocks(j.left) - 1) < CVINDEX_SIZE {
      forall outs ensures RunPhase(Waiting(j), outs) != Silent { NotSilent(j, outs); }
    } else {
      SilentWitness(j);
    }
  }

  /** Eight bytes from index 60 on: four are reported, then nothing more happens. */
  lemma SilentExample()
    ensures RunPhase(Waiting(Job(1, 3, 60, 8, 0)), Replies(8, 2)) == Silent
  {
    SilentWitness(Job(1, 3, 60, 8, 0));
  }

  /** The two report bytes name the CV line and the index exactly when the index
      is below 64; a block that crosses 64 is reported modulo 64. */
  lemma ReportNamesIndex(cv: nat, index: nat)
    requires cv < CV_SIZE
    ensures (Hi(cv, index) % 4) * 256 + Lo(cv) == cv && Hi(cv, index) / 4 == index % 64
  {
    var h, q, r := cv / 256, index / 64, index % 64;
    HighByte(h, q, r);
    hide Lo;
    assert Lo(cv) == cv - 256 * h by { LowByte(cv); }
  }

  lemma HighByte(h: nat, q: nat, r: nat)
    requires h < 4 && r < 64
    ensures (h + 4 * (64 * q + r)) % 256 == h + 4 * r
    ensures (h + 4 * r) % 4 == h && (h + 4 * r) / 4 == r
  {
  }

  lemma LowByte(cv: nat)
    ensures Lo(cv) == cv - 256 * (cv / 256)
  {
  }

  // ---------- replies over CAN: data bytes in any order ----------

  datatype Collected = Collected(data: seq<bv8>, have: set<nat>)

  datatype Message = Message(index: nat, value: bv8)

  function Collect(c: Collected, m: Message): Collected
    requires |c.data| == 6
  {
    if m.index < 6 then Collected(c.data[m.index := m.value], c.have + {m.index}) else c
  }

  function CollectAll(c: Collected, ms: seq<Message>): (r: Collected)
    requires |c.data| == 6
    ensures |r.data| == 6
    decreases |ms|
  {
    if ms == [] then c else CollectAll(Collect(c, ms[0]), ms[1..])
  }

  function UpTo(n: nat): (s: set<nat>)
    ensures forall k: nat :: k in s <==> k <= n
  {
    if n == 0 then {0} else UpTo(n - 1) + {n}
  }

  /** When handle_seek wakes the feedback thread: exactly the n data bytes and the
      checksum byte are there, and the checksum is right. */
  predicate Complete(c: Collected, n: nat)
    requires |c.data| == 6 && n < 6
  {
    c.have == UpTo(n) && GoodReply(c.data[..n + 1])
  }

  class Seeker {
    const canfbdata: array<bv8>
    var fbcollect: bv8
    var fbbytnum: nat
    ghost var have: set<nat>

    ghost predicate Valid()
      reads this, canfbdata
    {
      && canfbdata.Length == 6 && fbbytnum in {1, 2, 4}
      && fbcollect & 0xC0 == 0
      && (forall k :: 0 <= k < 6 ==> ((fbcollect & Mask(k) != 0) == (k in have)))
      && (forall k :: k in have ==> k < 6)
    }

    ghost function State(): Collected
      reads this, canfbdata
    {
      Collected(canfbdata[..], have)
    }

    /** The feedback thread starts to wait for n bytes. */
    constructor (n: nat)
      requires n in {1, 2, 4}
      ensures Valid() && fbbytnum == n && have == {} && fresh(canfbdata)
    {
      canfbdata := new bv8[6](_ => 0);
      fbcollect, fbbytnum, have := 0, n, {};
      new;
      NoBits();
    }

    /** handle_seek with sub-command 0x82. */
    method Seek(m: Message) returns (wake: bool)
      requires Valid()
      modifies this`fbcollect, this`have, canfbdata
      ensures Valid() && State() == Collect(old(State()), m)
      ensures wake <==> m.index < 6 && Complete(State(), fbbytnum)
    {
      wake := false;
      if m.index < 6 {
        canfbdata[m.index] := m.value;
        SetBits(fbcollect, m.index);
        fbcollect := fbcollect | Mask(m.index);
        have := have + {m.index};
        FullMask(fbcollect, fbbytnum, have);
        hide Mask, FullBits, GoodReply, UpTo;
        if fbcollect == FullBits(fbbytnum) {
          wake := CheckMfxCrc(canfbdata, fbbytnum);
        }
      }
    }
  }

  /** (2 << n) - 1 */
  function FullBits(n: nat): bv8
    requires n in {1, 2, 4}
  {
    if n == 1 then 0x03 else if n == 2 then 0x07 else 0x1F
  }

  lemma NoBits()
    ensures forall k :: 0 <= k < 8 ==> 0 & Mask(k) == 0
  {
  }

  lemma SetBits(x: bv8, i: nat)
    requires i < 6 && x & 0xC0 == 0
    ensures (x | Mask(i)) & 0xC0 == 0
    ensures forall k :: 0 <= k < 6 ==> (((x | Mask(i)) & Mask(k) != 0) == (x & Mask(k) != 0 || k == i))
  {
    forall k | 0 <= k < 6
      ensures ((x | Mask(i)) & Mask(k) != 0) == (x & Mask(k) != 0 || k == i)
    {
      OrMask(x, i, k);
    }
  }

  lemma FullMask(x: bv8, n: nat, have: set<nat>)
    requires n in {1, 2, 4} && x & 0xC0 == 0
    requires forall k :: 0 <= k < 6 ==> ((x & Mask(k) != 0) == (k in have))
    requires forall k :: k in have ==> k < 6
    ensures x == FullBits(n) <==> have == UpTo(n)
  {
    SixBits(x);
    assert have == UpTo(n) <==> forall k :: 0 <= k < 6 ==> (k in have <==> k <= n);
    assert 0 in have <==> x & Mask(0) != 0;
    assert 1 in have <==> x & Mask(1) != 0;
    assert 2 in have <==> x & Mask(2) != 0;
    assert 3 in have <==> x & Mask(3) != 0;
    assert 4 in have <==> x & Mask(4) != 0;
    assert 5 in have <==> x & Mask(5) != 0;
  }

  lemma SixBits(x: bv8)
    requires x & 0xC0 == 0
    ensures x == (if x & Mask(0) != 0 then 0x01 else 0) | (if x & Mask(1) != 0 then 0x02 else 0)
               | (if x & Mask(2) != 0 then 0x04 else 0) | (if x & Mask(3) != 0 then 0x08 else 0)
               | (if x & Mask(4) != 0 then 0x10 else 0) | (if x & Mask(5) != 0 then 0x20 else 0)
  {
  }

  predicate Seen(ms: seq<Message>, k: nat) {
    exists i :: 0 <= i < |ms| && ms[i].index == k
  }

  /** Whatever the order of arrival, and with any repetitions: a reply whose bytes
      are sent under their indices is delivered exactly when every index has been
      seen and its checksum is right, and delivered byte for byte. */
  lemma AnyOrder(c: Collected, ms: seq<Message>, r: seq<bv8>)
    requires |c.data| == 6 && c.have == {} && 2 <= |r| <= 6
    requires forall i :: 0 <= i < |ms| ==> ms[i].index < |r| && ms[i].value == r[ms[i].index]
    ensures var e := CollectAll(c, ms);
            && (Complete(e, |r| - 1) <==> GoodReply(r) && forall k :: 0 <= k < |r| ==> Seen(ms, k))
            && (Complete(e, |r| - 1) ==> e.data[..|r|] == r)
  {
    hide GoodReply, CollectAll;
    var e, n := CollectAll(c, ms), |r| - 1;
    CollectedIs(c, ms, r);
    if e.have == UpTo(n) {
      assert forall k :: 0 <= k < |r| ==> k in UpTo(n);
      assert e.data[..n + 1] == r;
    }
    if forall k :: 0 <= k < |r| ==> Seen(ms, k) {
      assert e.have == UpTo(n);
      assert e.data[..n + 1] == r;
    }
  }

  lemma {:induction false} CollectedIs(c: Collected, ms: seq<Message>, r: seq<bv8>)
    requires |c.data| == 6 && |r| <= 6
    requires forall i :: 0 <= i < |ms| ==> ms[i].index < |r| && ms[i].value == r[ms[i].index]
    requires forall k :: k in c.have ==> k < |r| && c.data[k] == r[k]
    ensures var e := CollectAll(c, ms);
            && (forall k :: k in e.have <==> k in c.have || Seen(ms, k))
            && (forall k :: k in e.have ==> k < |r| && e.data[k] == r[k])
    decreases |ms|
  {
    if ms != [] {
      CollectedIs(Collect(c, ms[0]), ms[1..], r);
      forall k ensures Seen(ms, k) <==> k == ms[0].index || Seen(ms[1..], k) {
        if i :| 0 <= i < |ms[1..]| && ms[1..][i].index == k { assert ms[i + 1].index == k; }
        if i :| 1 <= i < |ms| && ms[i].index == k { assert ms[1..][i - 1].index == k; }
      }
    }
  }
}
