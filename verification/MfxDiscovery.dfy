/** The mfx decoder discovery protocol: a bit-by-bit search over 32-bit decoder
    UIDs that the command station (master) runs against any set of decoders.

    Step 0 asks "anybody there?". Step 2b asks for decoders whose top b bits are
    the bits fixed so far followed by a 0; step 2b+1 asks the same with a 1.
    Step 1 means the search is suspended. */
module MfxDiscovery {
  import opened Bits
  import opened Options

  datatype Search = Search(step: int, uid: nat)

  datatype Query = Query(uid: nat, bits: nat)

  datatype Report = Partial(uid: nat, bits: int, ask: nat) | Final(uid: nat)

  datatype Outcome = Ack(ask: nat) | Lost

  // ---------- the handlers, as functions on the search state ----------

  /** What mfxManagement does to the state before it sends the query. */
  function Managed(s: Search): Search
    requires 0 <= s.step <= 65
  {
    if s.step == 1 then s
    else if s.step % 2 == 1 then s.(uid := SetBit(s.uid, 32 - s.step / 2))
    else if s.step == 0 then s.(uid := 0)
    else s
  }

  function QueryOf(m: Search): Query
    requires 0 <= m.step <= 65
  {
    Query(m.uid, m.step / 2)
  }

  function Acked(s: Search, ask: nat): Search {
    if s.step / 2 == 32 && ask != 0 then s.(step := 1)
    else if s.step % 2 == 1 then s.(step := s.step + 1)
    else s.(step := s.step + 2)
  }

  function AckReports(s: Search, ask: nat): seq<Report> {
    [Partial(s.uid, s.step / 2, ask)] + if s.step / 2 == 32 && ask != 0 then [Final(s.uid)] else []
  }

  function TimedOut(s: Search): Search {
    if s.step % 2 == 1 then s.(step := 0)
    else if s.step != 0 then s.(step := s.step + 1)
    else s
  }

  function TimeoutReports(s: Search): seq<Report> {
    if s.step != 0 then [Partial(s.uid, s.step / 2, 0)] else []
  }

  /** assignSID restarts a suspended search when automatic search is on. */
  function Assigned(s: Search, auto: bool): Search {
    if s.step == 1 && auto then s.(step := 0) else s
  }

  /** The management state of ddl_mfx.c with its handlers. */
  class MfxManager {
    var searchstep: int
    var decoderUId: nat
    var autosearch: bool

    function State(): Search
      reads this
    {
      Search(searchstep, decoderUId)
    }

    constructor (search: bool)
      ensures autosearch == search && State() == Search(if search then 0 else 1, 0)
    {
      autosearch := search;
      searchstep := if search then 0 else 1;
      decoderUId := 0;
    }

    /** One call of mfxManagement: says whether the station announces its own UID,
        the query it sends, and the microseconds until the next call. */
    method Management() returns (announce: bool, query: Option<Query>, delay: int)
      requires 0 <= searchstep <= 65
      modifies this`decoderUId
      ensures State() == Managed(old(State()))
      ensures query == if searchstep == 1 then None else Some(QueryOf(State()))
      ensures announce <==> searchstep in {0, 1, 32}
      ensures delay == if searchstep < 2 then 1000000 else 300000
    {
      announce := searchstep < 2 || searchstep == 32;
      query := None;
      if searchstep != 1 {
        var bitnum := searchstep / 2;
        if searchstep % 2 == 1 {
          decoderUId := SetBit(decoderUId, 32 - bitnum);
        } else if searchstep == 0 {
          decoderUId := 0;
        }
        query := Some(Query(decoderUId, bitnum));
      }
      delay := if searchstep < 2 then 1000000 else 300000;
    }

    method DiscoveryReport(ask: nat) returns (completed: bool, reports: seq<Report>)
      ensures completed <==> searchstep / 2 == 32 && ask != 0
      ensures reports == AckReports(State(), ask)
    {
      reports := [Partial(decoderUId, searchstep / 2, ask)];
      completed := false;
      if searchstep / 2 == 32 && ask != 0 {
        reports := reports + [Final(decoderUId)];
        completed := true;
      }
    }

    /** handleMFXacknowledge for a discovery packet. */
    method Acknowledge(ask: nat) returns (reports: seq<Report>)
      modifies this`searchstep
      ensures State() == Acked(old(State()), ask)
      ensures reports == AckReports(old(State()), ask)
    {
      var completed;
      completed, reports := DiscoveryReport(ask);
      if completed {
        searchstep := 1;
      } else if searchstep % 2 == 1 {
        searchstep := searchstep + 1;
      } else {
        searchstep := searchstep + 2;
      }
    }

    /** handleMFXtimeout for a discovery packet. */
    method Timeout() returns (reports: seq<Report>)
      modifies this`searchstep
      ensures State() == TimedOut(old(State()))
      ensures reports == TimeoutReports(old(State()))
    {
      reports := [];
      if searchstep != 0 {
        var completed;
        completed, reports := DiscoveryReport(0);
      }
      if searchstep % 2 == 1 {
        searchstep := 0;
      } else if searchstep != 0 {
        searchstep := searchstep + 1;
      }
    }

    method AssignSid()
      modifies this`searchstep
      ensures State() == Assigned(old(State()), autosearch)
    {
      if searchstep == 1 && autosearch {
        searchstep := 0;
      }
    }

    method Stop()
      modifies this`searchstep
      ensures State() == old(State()).(step := 1)
    {
      searchstep := 1;
    }
  }

  // ---------- runs against a set of decoders ----------

  /** A decoder answers iff its top q.bits bits are those of the query. */
  predicate Matches(u: nat, q: Query)
    requires q.bits <= 32
  {
    Shr(u, 32 - q.bits) == Shr(q.uid, 32 - q.bits)
  }

  ghost predicate Answered(decoders: set<nat>, q: Query)
    requires q.bits <= 32
  {
    exists u :: u in decoders && Matches(u, q)
  }

  /** The station sends a query in every step but 1. */
  predicate Asking(s: Search) {
    0 <= s.step <= 65 && s.step != 1
  }

  /** The ASK value only matters while all 32 bits are being tested. */
  predicate GoodAsk(s: Search, o: Outcome) {
    o.Ack? && s.step >= 64 ==> o.ask > 0
  }

  /** Answers may be lost, but nobody acknowledges without matching. */
  ghost predicate Possible(decoders: set<nat>, s: Search, o: Outcome)
    requires Asking(s)
  {
    GoodAsk(s, o) && (o.Ack? ==> Answered(decoders, QueryOf(Managed(s))))
  }

  ghost predicate Reliable(decoders: set<nat>, s: Search, o: Outcome)
    requires Asking(s)
  {
    && Possible(decoders, s, o)
    && (o.Lost? ==> !Answered(decoders, QueryOf(Managed(s))))
  }

  function After(s: Search, o: Outcome): Search
    requires Asking(s)
  {
    match o
    case Ack(ask) => Acked(Managed(s), ask)
    case Lost => TimedOut(Managed(s))
  }

  function Says(s: Search, o: Outcome): seq<Report>
    requires Asking(s)
  {
    match o
    case Ack(ask) => AckReports(Managed(s), ask)
    case Lost => TimeoutReports(Managed(s))
  }

  /** Clients are told of every answer, and of every silence but that at step 0, with
      the UID and the bits of the query that was sent; of a decoder, after an answer
      to all 32 bits with a non-zero ASK value. */
  lemma ReportsQuery(s: Search, o: Outcome)
    requires Asking(s)
    ensures var q, reports := QueryOf(Managed(s)), Says(s, o);
            match o
            case Lost => reports == (if q.bits == 0 then [] else [Partial(q.uid, q.bits, 0)])
            case Ack(ask) =>
              && reports[..1] == [Partial(q.uid, q.bits, ask)]
              && reports[1..] == (if q.bits == 32 && ask > 0 then [Final(q.uid)] else [])
  {
    hide SetBit;
  }

  /** The UIDs named by final reports. */
  function Finals(reports: seq<Report>): seq<nat> {
    if reports == [] then []
    else (if reports[0].Final? then [reports[0].uid] else []) + Finals(reports[1..])
  }

  function FinalsOf(s: Search, o: Outcome): (f: seq<nat>)
    requires Asking(s)
  {
    Finals(Says(s, o))
  }

  lemma FinalsAre(s: Search, o: Outcome)
    requires Asking(s)
    ensures FinalsOf(s, o) == if o.Ack? && s.step / 2 == 32 && o.ask != 0 then [Managed(s).uid] else []
  {
    hide SetBit;
    var r := Says(s, o);
    if r != [] {
      assert Finals(r) == Finals(r[1..]);
      assert |r| == 2 ==> r[1..] == [Final(Managed(s).uid)] && Finals(r[1..][1..]) == [];
    }
  }

  /** Where a step leads, apart from an ASK value of 0 at the last bit. */
  lemma AfterIs(s: Search, o: Outcome)
    requires Asking(s) && GoodAsk(s, o)
    ensures After(s, o).uid == Managed(s).uid
    ensures After(s, o).step ==
            match o
            case Ack(_) => if s.step >= 64 then 1 else s.step + 2 - s.step % 2
            case Lost => if s.step == 0 || s.step % 2 == 1 then 0 else s.step + 1
  {
    hide SetBit;
  }

  function RunState(s: Search, outs: seq<Outcome>): Search
    decreases |outs|
  {
    if outs == [] || !Asking(s) then s else RunState(After(s, outs[0]), outs[1..])
  }

  function RunFinals(s: Search, outs: seq<Outcome>): seq<nat>
    decreases |outs|
  {
    if outs == [] || !Asking(s) then []
    else FinalsOf(s, outs[0]) + RunFinals(After(s, outs[0]), outs[1..])
  }

  ghost predicate Lossy(decoders: set<nat>, s: Search, outs: seq<Outcome>)
    decreases |outs|
  {
    outs == [] || !Asking(s) ||
    (Possible(decoders, s, outs[0]) && Lossy(decoders, After(s, outs[0]), outs[1..]))
  }

  ghost predicate Faithful(decoders: set<nat>, s: Search, outs: seq<Outcome>)
    decreases |outs|
  {
    outs == [] || !Asking(s) ||
    (Reliable(decoders, s, outs[0]) && Faithful(decoders, After(s, outs[0]), outs[1..]))
  }

  ghost predicate Uids(decoders: set<nat>) {
    forall u :: u in decoders ==> u < Pow2(32)
  }

  ghost function Min(xs: set<nat>): (m: nat)
    requires xs != {}
    ensures m in xs && forall x :: x in xs ==> m <= x
  {
    var x :| x in xs;
    if xs == {x} then x
    else
      var y := Min(xs - {x});
      assert forall z :: z in xs ==> z == x || z in xs - {x};
      if x < y then x else y
  }

  /** Number of ones among the lowest k bits. */
  function Ones(x: nat, k: nat): (n: nat)
    ensures n <= k
  {
    if k == 0 then 0 else Ones(x, k - 1) + if Bit(x, k - 1) then 1 else 0
  }

  // ---------- one step of a search for m ----------

  /** About to test bit k-1; the bits above it are those of m. */
  function At(k: nat, m: nat): Search {
    Search(2 * (33 - k), Shl(Shr(m, k), k))
  }

  function AtOdd(k: nat, m: nat): Search {
    At(k, m).(step := 2 * (33 - k) + 1)
  }

  function Next(k: nat, m: nat): Search
    requires k > 0
  {
    if k == 1 then Search(1, m) else At(k - 1, m)
  }

  /** m is the smallest decoder that agrees with it above bit k. */
  ghost predicate Leads(decoders: set<nat>, k: nat, m: nat) {
    m in decoders && forall u :: u in decoders && Shr(u, k) == Shr(m, k) ==> m <= u
  }

  lemma Prefix(k: nat, m: nat)
    requires k > 0
    ensures Shr(Shl(Shr(m, k), k), k - 1) == 2 * Shr(m, k)
    ensures Shl(Shr(m, k - 1), k - 1) ==
            Shl(Shr(m, k), k) + if Bit(m, k - 1) then Pow2(k - 1) else 0
  {
    ShlStep(Shr(m, k), k - 1);
    ShrShl(2 * Shr(m, k), k - 1);
  }

  lemma LeadsNext(decoders: set<nat>, k: nat, m: nat)
    requires k > 0 && Leads(decoders, k, m)
    ensures Leads(decoders, k - 1, m)
  {
    forall u | u in decoders && Shr(u, k - 1) == Shr(m, k - 1)
      ensures m <= u
    {
      assert Shr(u, k) == Shr(u, k - 1) / 2;
    }
  }

  /** A 0 bit of m is acknowledged, by m itself. */
  lemma StepZero(decoders: set<nat>, k: nat, m: nat, o: Outcome)
    requires 1 <= k <= 32 && m in decoders && !Bit(m, k - 1)
    requires Reliable(decoders, At(k, m), o)
    ensures After(At(k, m), o) == Next(k, m)
    ensures FinalsOf(At(k, m), o) == if k == 1 then [m] else []
  {
    Prefix(k, m);
    assert Matches(m, QueryOf(Managed(At(k, m))));
    FinalsAre(At(k, m), o);
  }

  /** A 1 bit of the leading decoder m: nobody answers to 0. */
  lemma StepOne(decoders: set<nat>, k: nat, m: nat, o: Outcome)
    requires 1 <= k <= 32 && Leads(decoders, k, m) && Bit(m, k - 1)
    requires Reliable(decoders, At(k, m), o)
    ensures After(At(k, m), o) == AtOdd(k, m)
    ensures FinalsOf(At(k, m), o) == []
  {
    Prefix(k, m);
    forall u | u in decoders
      ensures !Matches(u, QueryOf(Managed(At(k, m))))
    {
      if m <= u { ShrMono(m, u, k - 1); }
    }
    FinalsAre(At(k, m), o);
  }

  /** ... and m answers to 1. */
  lemma StepOdd(decoders: set<nat>, k: nat, m: nat, o: Outcome)
    requires 1 <= k <= 32 && m in decoders && Bit(m, k - 1)
    requires Reliable(decoders, AtOdd(k, m), o)
    ensures After(AtOdd(k, m), o) == Next(k, m)
    ensures FinalsOf(AtOdd(k, m), o) == if k == 1 then [m] else []
  {
    Prefix(k, m);
    assert Managed(AtOdd(k, m)) == Search(2 * (33 - k) + 1, Shl(Shr(m, k - 1), k - 1));
    ShrShl(Shr(m, k - 1), k - 1);
    assert Matches(m, QueryOf(Managed(AtOdd(k, m))));
    FinalsAre(AtOdd(k, m), o);
  }

  // ---------- a search with reliable answers ----------

  /** From the test of bit k-1 on, the search reports m after k + Ones(m, k)
      queries, not earlier. */
  lemma {:induction false} SearchFrom(decoders: set<nat>, k: nat, m: nat, outs: seq<Outcome>)
    requires 1 <= k <= 32 && Leads(decoders, k, m)
    requires Faithful(decoders, At(k, m), outs)
    ensures |outs| >= k + Ones(m, k) ==>
              RunState(At(k, m), outs) == Search(1, m) && RunFinals(At(k, m), outs) == [m]
    ensures |outs| < k + Ones(m, k) ==>
              Asking(RunState(At(k, m), outs)) && RunFinals(At(k, m), outs) == []
    decreases k, 1, |outs|
  {
    assert m in decoders;
    hide RunState, RunFinals, Faithful, Reliable, After, FinalsOf, Leads, Shr, Shl;
    if outs == [] {
      NoSteps(At(k, m));
    } else {
      LeadsNext(decoders, k, m);
      FirstStep(decoders, At(k, m), outs);
      var o, rest := outs[0], outs[1..];
      if !Bit(m, k - 1) {
        StepZero(decoders, k, m, o);
        Onwards(decoders, k, m, rest);
      } else {
        StepOne(decoders, k, m, o);
        if rest == [] {
          NoSteps(AtOdd(k, m));
        } else {
          FirstStep(decoders, AtOdd(k, m), rest);
          StepOdd(decoders, k, m, rest[0]);
          Onwards(decoders, k, m, rest[1..]);
        }
      }
    }
  }

  /** The rest of the search when bit k-1 is settled. */
  lemma {:induction false} Onwards(decoders: set<nat>, k: nat, m: nat, outs: seq<Outcome>)
    requires 1 <= k <= 32 && Leads(decoders, k - 1, m)
    requires Faithful(decoders, Next(k, m), outs)
    ensures var found := if k == 1 then [m] else [];
            && (|outs| >= k - 1 + Ones(m, k - 1) ==>
                  RunState(Next(k, m), outs) == Search(1, m) && found + RunFinals(Next(k, m), outs) == [m])
            && (|outs| < k - 1 + Ones(m, k - 1) ==>
                  Asking(RunState(Next(k, m), outs)) && RunFinals(Next(k, m), outs) == [])
    decreases k, 0, |outs|
  {
    if k > 1 {
      hide RunState, RunFinals, Faithful, Ones, Shr, Shl, Leads;
      SearchFrom(decoders, k - 1, m, outs);
      assert [] + RunFinals(Next(k, m), outs) == RunFinals(Next(k, m), outs);
    }
  }

  lemma FirstStep(decoders: set<nat>, s: Search, outs: seq<Outcome>)
    requires Asking(s) && outs != [] && Faithful(decoders, s, outs)
    ensures Reliable(decoders, s, outs[0]) && Faithful(decoders, After(s, outs[0]), outs[1..])
    ensures RunState(s, outs) == RunState(After(s, outs[0]), outs[1..])
    ensures RunFinals(s, outs) == FinalsOf(s, outs[0]) + RunFinals(After(s, outs[0]), outs[1..])
    ensures FinalsOf(s, outs[0]) == [] ==> RunFinals(s, outs) == RunFinals(After(s, outs[0]), outs[1..])
  {
    hide After, FinalsOf, Reliable;
  }

  lemma NoSteps(s: Search)
    ensures RunState(s, []) == s && RunFinals(s, []) == []
  {
  }

  lemma StepBegin(decoders: set<nat>, s: Search, m: nat, o: Outcome)
    requires s.step == 0 && Uids(decoders) && m in decoders
    requires Reliable(decoders, s, o)
    ensures After(s, o) == At(32, m) && FinalsOf(s, o) == []
  {
    ShrBound(m, 32, 0);
    ShrBound(0, 32, 0);
    assert Matches(m, QueryOf(Managed(s)));
    FinalsAre(s, o);
    ShiftZero(32);
  }

  lemma LeadsAll(decoders: set<nat>)
    requires Uids(decoders) && decoders != {}
    ensures Leads(decoders, 32, Min(decoders))
  {
  }

  /** With reliable answers a search from step 0 reports the smallest UID,
      after exactly 33 queries plus one for every 1 bit of it. */
  lemma FindsMinimum(decoders: set<nat>, s: Search, outs: seq<Outcome>)
    requires s.step == 0 && Uids(decoders) && decoders != {}
    requires Faithful(decoders, s, outs)
    ensures var m := Min(decoders);
            var n := 33 + Ones(m, 32);
            && (|outs| >= n ==> RunState(s, outs) == Search(1, m) && RunFinals(s, outs) == [m])
            && (|outs| < n ==> Asking(RunState(s, outs)) && RunFinals(s, outs) == [])
  {
    if outs != [] {
      var m := Min(decoders);
      StepBegin(decoders, s, m, outs[0]);
      LeadsAll(decoders);
      SearchFrom(decoders, 32, m, outs[1..]);
    }
  }

  /** Without automatic search a search ends with its first decoder: binding that
      leaves it suspended, and nothing more is asked or reported. With automatic
      search the binding starts the next search. */
  lemma WithoutAuto(decoders: set<nat>, s: Search, outs: seq<Outcome>, more: seq<Outcome>)
    requires s.step == 0 && Uids(decoders) && decoders != {} && Faithful(decoders, s, outs)
    requires |outs| >= 33 + Ones(Min(decoders), 32)
    ensures var t := Assigned(RunState(s, outs), false);
            t == Search(1, Min(decoders)) && !Asking(t) && RunState(t, more) == t && RunFinals(t, more) == []
    ensures Assigned(RunState(s, outs), true) == Search(0, Min(decoders))
  {
    FindsMinimum(decoders, s, outs);
  }

  /** A search under way is not disturbed by a binding. */
  lemma BindingLeavesSearch(s: Search, auto: bool)
    requires Asking(s)
    ensures Assigned(s, auto) == s
  {
  }

  // ---------- lost answers ----------

  /** The bit under test and all bits below it are 0; the bits above fit. */
  predicate Inv(s: Search) {
    && 0 <= s.step <= 65
    && (s.step >= 2 ==>
          var k := 33 - s.step / 2;
          Shl(Shr(s.uid, k), k) == s.uid && Shr(s.uid, k) < Pow2(32 - k))
  }

  /** An odd step tests its bit set to 1 (it was 0), an even one leaves it 0;
      either way the tested prefix is what the query asks for. */
  lemma TestedPrefix(s: Search)
    requires Inv(s) && s.step >= 2
    ensures var k := 32 - s.step / 2;
            var q := 2 * Shr(s.uid, k + 1) + s.step % 2;
            && Managed(s) == s.(uid := Shl(q, k)) && Shr(Shl(q, k), k) == q && q < Pow2(32 - k)
            && (s.step % 2 == 0 ==> Shl(q, k) == s.uid)
  {
    hide Shr, Shl;
    var k := 32 - s.step / 2;
    Prefix(k + 1, s.uid);
    ShlStep(Shr(s.uid, k + 1), k);
    ShrShl(2 * Shr(s.uid, k + 1), k);
    ShrShl(2 * Shr(s.uid, k + 1) + s.step % 2, k);
  }

  lemma ShrZero(x: nat)
    ensures Shr(x, 0) == x
  {
  }

  /** Whatever is lost, a step keeps the invariant, and moves forward or back to
      a base step; a final report names a decoder that is there. */
  lemma LossyStep(decoders: set<nat>, s: Search, o: Outcome)
    requires Inv(s) && Asking(s) && Possible(decoders, s, o) && Uids(decoders)
    ensures Inv(After(s, o))
    ensures After(s, o).step in {0, 1} || After(s, o).step > s.step
    ensures forall u :: u in FinalsOf(s, o) ==> u in decoders
  {
    FinalsAre(s, o);
    InvAfter(s, o);
    if s.step / 2 == 32 && o.Ack? {
      var u :| u in decoders && Matches(u, QueryOf(Managed(s)));
      ShrZero(u);
      ShrZero(Managed(s).uid);
    }
  }

  lemma InvAfter(s: Search, o: Outcome)
    requires Inv(s) && Asking(s) && GoodAsk(s, o)
    ensures Inv(After(s, o))
    ensures After(s, o).step in {0, 1} || After(s, o).step > s.step
  {
    AfterIs(s, o);
    if s.step == 0 {
      InvAt(2, 32, 0);
      ShiftZero(32);
      hide Shr, Shl;
    } else {
      var b, k := s.step / 2, 32 - s.step / 2;
      TestedPrefix(s);
      hide Shr, Shl, SetBit, Pow2, After, Managed;
      var q := 2 * Shr(s.uid, k + 1) + s.step % 2;
      if o.Ack? && b < 32 {
        assert After(s, o) == Search(2 * b + 2, Shl(q, k));
        InvAt(2 * b + 2, k, q);
      } else if o.Lost? && s.step % 2 == 0 {
        assert After(s, o) == Search(2 * b + 1, s.uid);
        InvAt(2 * b + 1, k + 1, Shr(s.uid, k + 1));
      }
    }
  }

  lemma InvAt(step: int, k: nat, q: nat)
    requires 2 <= step <= 65 && k == 33 - step / 2 && q < Pow2(32 - k)
    ensures Inv(Search(step, Shl(q, k)))
  {
    ShrShl(q, k);
  }

  /** Under any pattern of lost answers every final report of a run names an
      existing decoder, and searchstep and decoderUId stay well formed. */
  lemma {:induction false} LossySafety(decoders: set<nat>, s: Search, outs: seq<Outcome>)
    requires Inv(s) && Lossy(decoders, s, outs) && Uids(decoders)
    ensures Inv(RunState(s, outs))
    ensures forall u :: u in RunFinals(s, outs) ==> u in decoders
    decreases |outs|
  {
    if outs != [] && Asking(s) {
      LossyStep(decoders, s, outs[0]);
      LossySafety(decoders, After(s, outs[0]), outs[1..]);
    }
  }

  /** Steps only grow between visits to a base step, so the search is back at
      step 0 or 1 after at most 66 - step queries (65 from a base step). */
  lemma {:induction false} BackToBase(decoders: set<nat>, s: Search, outs: seq<Outcome>) returns (i: nat)
    requires Inv(s) && Asking(s) && Lossy(decoders, s, outs) && Uids(decoders)
    requires |outs| >= if s.step == 0 then 65 else 66 - s.step
    ensures 1 <= i <= (if s.step == 0 then 65 else 66 - s.step)
    ensures RunState(s, outs[..i]).step in {0, 1}
    decreases |outs|
  {
    LossyStep(decoders, s, outs[0]);
    var s' := After(s, outs[0]);
    if s'.step in {0, 1} {
      i := 1;
      assert outs[..1][1..] == [];
    } else {
      i := BackToBase(decoders, s', outs[1..]);
      assert outs[..i + 1][0] == outs[0] && outs[..i + 1][1..] == outs[1..][..i];
      i := i + 1;
    }
  }

  /** The acknowledge that leaves the steps 0..65 is exactly one with ASK value 0
      while all 32 bits are being tested. */
  lemma AskZeroEscapes(s: Search, ask: nat)
    requires Inv(s) && Asking(s)
    ensures Acked(Managed(s), ask).step <= 65 <==> !(s.step >= 64 && ask == 0)
  {
  }

  // ---------- recovery ----------

  /** The decoders that agree with x above bit k. */
  function Agreeing(decoders: set<nat>, k: nat, q: nat): set<nat> {
    set u | u in decoders && Shr(u, k) == q
  }

  /** Once answers are reliable again, a search that lost answers left anywhere
      finds an existing decoder u within 67 queries, and reports nothing else. */
  lemma Recovers(decoders: set<nat>, s: Search, outs: seq<Outcome>) returns (u: nat)
    requires Inv(s) && Asking(s) && Uids(decoders) && decoders != {}
    requires Faithful(decoders, s, outs) && |outs| >= 67
    ensures u in decoders && RunFinals(s, outs) == [u] && RunState(s, outs) == Search(1, u)
  {
    if s.step == 0 {
      FindsMinimum(decoders, s, outs);
      u := Min(decoders);
    } else if s.step % 2 == 1 {
      u := RecoversOdd(decoders, s, outs);
    } else {
      u := RecoversEven(decoders, s, outs);
    }
  }

  lemma RecoversEven(decoders: set<nat>, s: Search, outs: seq<Outcome>) returns (u: nat)
    requires Inv(s) && s.step >= 2 && s.step % 2 == 0 && Uids(decoders) && decoders != {}
    requires Faithful(decoders, s, outs) && |outs| >= 67
    ensures u in decoders && RunFinals(s, outs) == [u] && RunState(s, outs) == Search(1, u)
  {
    var k := 33 - s.step / 2;
    hide Agreeing, Shr, RunState, RunFinals, Faithful, Uids;
    if Agreeing(decoders, k, Shr(s.uid, k)) != {} {
      u := Min(Agreeing(decoders, k, Shr(s.uid, k)));
      AtMinimum(decoders, s);
      SearchEnds(decoders, k, u, outs);
    } else {
      NobodyAgrees(decoders, s);
      u := AfterSilence(decoders, s, outs);
    }
  }

  lemma SearchEnds(decoders: set<nat>, k: nat, u: nat, outs: seq<Outcome>)
    requires 1 <= k <= 32 && Leads(decoders, k, u) && Faithful(decoders, At(k, u), outs) && |outs| >= 2 * k
    ensures RunFinals(At(k, u), outs) == [u] && RunState(At(k, u), outs) == Search(1, u)
  {
    hide Shr, Shl, RunState, RunFinals, Faithful, Leads, Ones;
    SearchFrom(decoders, k, u, outs);
  }

  lemma AfterSilence(decoders: set<nat>, s: Search, outs: seq<Outcome>) returns (u: nat)
    requires Inv(s) && s.step >= 2 && s.step % 2 == 0 && Uids(decoders) && decoders != {}
    requires Faithful(decoders, s, outs) && |outs| >= 67 && !Answered(decoders, QueryOf(Managed(s)))
    ensures u in decoders && RunFinals(s, outs) == [u] && RunState(s, outs) == Search(1, u)
  {
    assert s.step <= 65;
    hide Answered, Managed, QueryOf, FinalsOf, After, RunState, RunFinals, Faithful, Uids, Inv, TimedOut, Acked;
    FirstStep(decoders, s, outs);
    assert outs[0] == Lost;
    InvAfter(s, outs[0]);
    FinalsAre(s, outs[0]);
    AfterIs(s, outs[0]);
    u := RecoversOdd(decoders, After(s, outs[0]), outs[1..]);
  }

  /** The search is on its way to the smallest decoder above the bit under test. */
  lemma AtMinimum(decoders: set<nat>, s: Search)
    requires Inv(s) && s.step >= 2 && s.step % 2 == 0
    requires Agreeing(decoders, 33 - s.step / 2, Shr(s.uid, 33 - s.step / 2)) != {}
    ensures var k := 33 - s.step / 2;
            var u := Min(Agreeing(decoders, k, Shr(s.uid, k)));
            s == At(k, u) && Leads(decoders, k, u) && u in decoders
  {
    hide Pow2, SetBit, Shl, Shr;
    var k := 33 - s.step / 2;
    AgreeingLeads(decoders, k, Min(Agreeing(decoders, k, Shr(s.uid, k))));
  }

  /** Without a decoder above the bit under test nobody answers to a 0. */
  lemma NobodyAgrees(decoders: set<nat>, s: Search)
    requires Inv(s) && s.step >= 2 && s.step % 2 == 0
    requires var k := 33 - s.step / 2; Agreeing(decoders, k, Shr(s.uid, k)) == {}
    ensures !Answered(decoders, QueryOf(Managed(s)))
  {
    hide Pow2, SetBit, Shl;
    var k := 33 - s.step / 2;
    TestedPrefix(s);
    forall d | d in decoders ensures !Matches(d, QueryOf(Managed(s))) {
      assert Shr(d, k) == Shr(d, k - 1) / 2;
      assert d !in Agreeing(decoders, k, Shr(s.uid, k));
    }
  }

  lemma RecoversOdd(decoders: set<nat>, s: Search, outs: seq<Outcome>) returns (u: nat)
    requires Inv(s) && s.step >= 2 && s.step % 2 == 1 && Uids(decoders) && decoders != {}
    requires Faithful(decoders, s, outs) && |outs| >= 66
    ensures u in decoders && RunFinals(s, outs) == [u] && RunState(s, outs) == Search(1, u)
  {
    var k := 33 - s.step / 2;
    hide Agreeing, Shr, RunState, RunFinals, Faithful, Uids;
    if Agreeing(decoders, k - 1, 2 * Shr(s.uid, k) + 1) != {} {
      u := Min(Agreeing(decoders, k - 1, 2 * Shr(s.uid, k) + 1));
      OddMinimum(decoders, s);
      OddAnswered(decoders, k, u, outs);
    } else {
      NobodyAgreesOdd(decoders, s);
      u := OddRefused(decoders, s, outs);
    }
  }

  lemma OddAnswered(decoders: set<nat>, k: nat, u: nat, outs: seq<Outcome>)
    requires 1 <= k <= 32 && Bit(u, k - 1) && Leads(decoders, k - 1, u) && u in decoders
    requires Faithful(decoders, AtOdd(k, u), outs) && |outs| >= 2 * k
    ensures RunFinals(AtOdd(k, u), outs) == [u] && RunState(AtOdd(k, u), outs) == Search(1, u)
  {
    hide Shr, Shl, RunState, RunFinals, Faithful, Leads, Ones, FinalsOf, After;
    FirstStep(decoders, AtOdd(k, u), outs);
    StepOdd(decoders, k, u, outs[0]);
    Onwards(decoders, k, u, outs[1..]);
  }

  lemma OddRefused(decoders: set<nat>, s: Search, outs: seq<Outcome>) returns (u: nat)
    requires Inv(s) && s.step >= 2 && s.step % 2 == 1 && Uids(decoders) && decoders != {}
    requires Faithful(decoders, s, outs) && |outs| >= 66 && !Answered(decoders, QueryOf(Managed(s)))
    ensures u in decoders && RunFinals(s, outs) == [u] && RunState(s, outs) == Search(1, u)
  {
    FirstStep(decoders, s, outs);
    FinalsAre(s, outs[0]);
    AfterIs(s, outs[0]);
    hide Answered, Managed, FinalsOf, After, RunState, RunFinals, Faithful, Uids, Ones;
    FindsMinimum(decoders, After(s, outs[0]), outs[1..]);
    u := Min(decoders);
  }

  lemma OddMinimum(decoders: set<nat>, s: Search)
    requires Inv(s) && s.step >= 2 && s.step % 2 == 1
    requires var k := 33 - s.step / 2; Agreeing(decoders, k - 1, 2 * Shr(s.uid, k) + 1) != {}
    ensures var k := 33 - s.step / 2;
            var u := Min(Agreeing(decoders, k - 1, 2 * Shr(s.uid, k) + 1));
            s == AtOdd(k, u) && Bit(u, k - 1) && Leads(decoders, k - 1, u) && u in decoders
  {
    hide Pow2, SetBit, Shl;
    var k := 33 - s.step / 2;
    var u := Min(Agreeing(decoders, k - 1, 2 * Shr(s.uid, k) + 1));
    AgreeingLeads(decoders, k - 1, u);
    assert Shr(u, k) == Shr(u, k - 1) / 2;
  }

  lemma NobodyAgreesOdd(decoders: set<nat>, s: Search)
    requires Inv(s) && s.step >= 2 && s.step % 2 == 1
    requires var k := 33 - s.step / 2; Agreeing(decoders, k - 1, 2 * Shr(s.uid, k) + 1) == {}
    ensures !Answered(decoders, QueryOf(Managed(s)))
  {
    hide Pow2, SetBit, Shl;
    var k := 33 - s.step / 2;
    TestedPrefix(s);
    forall d | d in decoders ensures !Matches(d, QueryOf(Managed(s))) {
      assert d !in Agreeing(decoders, k - 1, 2 * Shr(s.uid, k) + 1);
    }
  }

  lemma AgreeingLeads(decoders: set<nat>, k: nat, m: nat)
    requires var alive := Agreeing(decoders, k, Shr(m, k)); alive != {} && m == Min(alive)
    ensures Leads(decoders, k, m)
  {
    assert forall u :: u in decoders && Shr(u, k) == Shr(m, k) ==> u in Agreeing(decoders, k, Shr(m, k));
  }

  // ---------- automatic search: every decoder once, in ascending order ----------

  /** The search, the decoders that are not yet registered, and the reported UIDs. */
  datatype Layout = Layout(search: Search, open: set<nat>, found: seq<nat>)

  /** A reported decoder is bound with assignSID and answers no more. */
  function LayoutStep(y: Layout, o: Outcome): Layout
    requires Asking(y.search)
  {
    var s, f := After(y.search, o), FinalsOf(y.search, o);
    if f == [] then Layout(s, y.open, y.found)
    else Layout(Assigned(s, true), y.open - {f[0]}, y.found + f)
  }

  function LayoutRun(y: Layout, outs: seq<Outcome>): Layout
    decreases |outs|
  {
    if outs == [] || !Asking(y.search) then y else LayoutRun(LayoutStep(y, outs[0]), outs[1..])
  }

  ghost predicate LayoutFaithful(y: Layout, outs: seq<Outcome>)
    decreases |outs|
  {
    outs == [] || !Asking(y.search) ||
    (Reliable(y.open, y.search, outs[0]) && LayoutFaithful(LayoutStep(y, outs[0]), outs[1..]))
  }

  ghost function Ascending(xs: set<nat>): (s: seq<nat>)
    ensures |s| == |xs|
  {
    if xs == {} then [] else [Min(xs)] + Ascending(xs - {Min(xs)})
  }

  /** Ascending(xs) lists exactly the elements of xs, each once, in order. */
  lemma {:induction false} AscendingIsSorted(xs: set<nat>)
    ensures forall x :: x in Ascending(xs) <==> x in xs
    ensures forall i, j :: 0 <= i < j < |xs| ==> Ascending(xs)[i] < Ascending(xs)[j]
  {
    if xs != {} {
      var m := Min(xs);
      var rest := Ascending(xs - {m});
      AscendingIsSorted(xs - {m});
      assert Ascending(xs) == [m] + rest;
      forall j | 1 <= j < |xs| ensures m < Ascending(xs)[j] {
        assert rest[j - 1] in rest;
      }
    }
  }

  /** Queries that registering all of xs takes. */
  ghost function Cost(xs: set<nat>): nat {
    if xs == {} then 0 else 33 + Ones(Min(xs), 32) + Cost(xs - {Min(xs)})
  }

  /** What a run from y must come to, when it still needs n queries. */
  ghost predicate Registers(y: Layout, outs: seq<Outcome>, n: nat) {
    var r := LayoutRun(y, outs);
    && r.found <= y.found + Ascending(y.open)
    && (|outs| >= n ==> r.found == y.found + Ascending(y.open) && r.open == {} && r.search.step == 0)
  }

  /** Every decoder of any finite set is reported exactly once, in ascending UID
      order; afterwards the search idles at step 0 and reports nothing. */
  lemma {:induction false} RegistersAll(y: Layout, outs: seq<Outcome>)
    requires y.search.step == 0 && Uids(y.open) && LayoutFaithful(y, outs)
    ensures Registers(y, outs, Cost(y.open))
    decreases |outs|, 1
  {
    if outs != [] {
      if y.open == {} {
        assert LayoutStep(y, outs[0]) == y.(search := Search(0, 0));
        RegistersAll(LayoutStep(y, outs[0]), outs[1..]);
      } else {
        var m := Min(y.open);
        StepBegin(y.open, y.search, m, outs[0]);
        LeadsAll(y.open);
        RegistersFrom(LayoutStep(y, outs[0]), 32, m, outs[1..]);
      }
    }
  }

  lemma {:induction false} RegistersFrom(y: Layout, k: nat, m: nat, outs: seq<Outcome>)
    requires 1 <= k <= 32 && y.search == At(k, m) && Leads(y.open, k, m)
    requires y.open != {} && m == Min(y.open) && Uids(y.open) && LayoutFaithful(y, outs)
    ensures Registers(y, outs, k + Ones(m, k) + Cost(y.open - {m}))
    decreases |outs|, 0
  {
    if outs != [] {
      LeadsNext(y.open, k, m);
      if !Bit(m, k - 1) {
        StepZero(y.open, k, m, outs[0]);
        RegistersNext(y, k, m, LayoutStep(y, outs[0]), outs[1..]);
      } else {
        StepOne(y.open, k, m, outs[0]);
        var z, rest := LayoutStep(y, outs[0]), outs[1..];
        if rest != [] {
          StepOdd(y.open, k, m, rest[0]);
          RegistersNext(y, k, m, LayoutStep(z, rest[0]), rest[1..]);
        }
      }
    }
  }

  /** Bit k-1 is settled: go on with the next bit, or bind m and start again. */
  lemma {:induction false} RegistersNext(y: Layout, k: nat, m: nat, z: Layout, outs: seq<Outcome>)
    requires 1 <= k <= 32 && Leads(y.open, k - 1, m)
    requires y.open != {} && m == Min(y.open) && Uids(y.open) && LayoutFaithful(z, outs)
    requires z == if k == 1 then Layout(Search(0, m), y.open - {m}, y.found + [m])
                  else y.(search := At(k - 1, m))
    ensures Registers(z, outs, k - 1 + Ones(m, k - 1) + Cost(y.open - {m}))
    ensures z.found + Ascending(z.open) == y.found + Ascending(y.open)
    decreases |outs|, 2
  {
    if k > 1 {
      RegistersFrom(z, k - 1, m, outs);
    } else {
      RegistersAll(z, outs);
      assert Ascending(y.open) == [m] + Ascending(z.open);
    }
  }

  // ---------- automatic search when answers are lost ----------

  ghost predicate LayoutLossy(y: Layout, outs: seq<Outcome>)
    decreases |outs|
  {
    outs == [] || !Asking(y.search) ||
    (Possible(y.open, y.search, outs[0]) && LayoutLossy(LayoutStep(y, outs[0]), outs[1..]))
  }

  /** Nobody is both open and found, and nobody was found twice. */
  predicate Consistent(y: Layout) {
    && (forall i, j :: 0 <= i < j < |y.found| ==> y.found[i] != y.found[j])
    && (forall u :: u in y.found ==> u !in y.open)
  }

  /** Whatever answers are lost, a step loses no decoder, invents none and finds
      none a second time. */
  lemma LayoutStepKeeps(y: Layout, o: Outcome)
    requires Inv(y.search) && Asking(y.search) && Uids(y.open) && Consistent(y) && Possible(y.open, y.search, o)
    ensures var z := LayoutStep(y, o);
            && Inv(z.search) && Uids(z.open) && Consistent(z)
            && forall u :: u in z.open || u in z.found <==> u in y.open || u in y.found
  {
    LossyStep(y.open, y.search, o);
    FinalsAre(y.search, o);
    var f := FinalsOf(y.search, o);
    hide After, FinalsOf, Inv;
    if f != [] {
      assert f == [f[0]] && f[0] in y.open;
      assert Inv(Assigned(After(y.search, o), true)) by { InvAssigned(After(y.search, o)); }
    }
  }

  lemma InvAssigned(s: Search)
    requires Inv(s)
    ensures Inv(Assigned(s, true))
  {
  }

  /** With automatic search and any pattern of lost answers: every UID reported is
      one of the decoders, none is reported twice, and none is lost. */
  lemma {:induction false} NobodyTwice(y: Layout, outs: seq<Outcome>)
    requires Inv(y.search) && Uids(y.open) && Consistent(y) && LayoutLossy(y, outs)
    ensures var r := LayoutRun(y, outs);
            && Consistent(r)
            && forall u :: u in r.open || u in r.found <==> u in y.open || u in y.found
    decreases |outs|
  {
    hide LayoutStep, Possible, Consistent, Inv, Uids;
    if outs != [] && Asking(y.search) {
      LayoutStepKeeps(y, outs[0]);
      NobodyTwice(LayoutStep(y, outs[0]), outs[1..]);
    }
  }

  /** Until its first report a registration is a plain search. */
  lemma {:induction false} SearchWithin(y: Layout, outs: seq<Outcome>)
    requires LayoutFaithful(y, outs)
    ensures Faithful(y.open, y.search, outs)
    decreases |outs|
  {
    hide Reliable;
    if outs != [] && Asking(y.search) {
      FinalsAre(y.search, outs[0]);
      hide FinalsOf;
      if FinalsOf(y.search, outs[0]) == [] {
        SearchWithin(LayoutStep(y, outs[0]), outs[1..]);
      } else {
        assert After(y.search, outs[0]).step == 1;
      }
    }
  }

  /** The report of a search that finds u registers u and starts again. */
  lemma {:induction false} UpToReport(y: Layout, outs: seq<Outcome>, more: seq<Outcome>, u: nat) returns (n: nat)
    requires LayoutFaithful(y, outs + more) && RunFinals(y.search, outs) == [u]
    ensures n <= |outs|
    ensures var z := Layout(Search(0, u), y.open - {u}, y.found + [u]);
            LayoutFaithful(z, outs[n..] + more) && LayoutRun(y, outs + more) == LayoutRun(z, outs[n..] + more)
    decreases |outs|
  {
    assert outs != [] && Asking(y.search);
    var o, rest := outs[0], outs[1..];
    assert (outs + more)[0] == o && (outs + more)[1..] == rest + more;
    FinalsAre(y.search, o);
    var f, later := FinalsOf(y.search, o), RunFinals(After(y.search, o), rest);
    assert f + later == [u];
    hide FinalsOf, Reliable, Managed, Acked, TimedOut;
    var z := Layout(Search(0, u), y.open - {u}, y.found + [u]);
    if f == [] {
      assert later == [u];
      n := UpToReport(LayoutStep(y, o), rest, more, u);
      n := n + 1;
      assert outs[n..] == rest[n - 1..];
    } else {
      AfterIs(y.search, o);
      assert After(y.search, o).step == 1;
      assert later == [];
      assert f == [u] by { assert f + [] == f; }
      n := 1;
      assert LayoutStep(y, o) == z;
    }
  }

  lemma {:induction false} CostBound(xs: set<nat>)
    ensures Cost(xs) <= 65 * |xs|
  {
    if xs != {} { CostBound(xs - {Min(xs)}); }
  }

  /** From any state that losses left behind: once answers are reliable again, all
      decoders still open are registered, the first one found and then the others in
      ascending order, within 67 queries and 65 for each of the others. */
  lemma RegistersAfterLosses(y: Layout, outs: seq<Outcome>) returns (u: nat)
    requires Inv(y.search) && Asking(y.search) && Uids(y.open) && y.open != {} && LayoutFaithful(y, outs)
    requires |outs| >= 67 + 65 * (|y.open| - 1)
    ensures u in y.open
    ensures var r := LayoutRun(y, outs);
            r.open == {} && r.search.step == 0 && r.found == y.found + [u] + Ascending(y.open - {u})
  {
    var a, b := outs[..67], outs[67..];
    assert outs == a + b;
    PrefixFaithful(y, a, b);
    SearchWithin(y, a);
    u := Recovers(y.open, y.search, a);
    var n := UpToReport(y, a, b, u);
    var z := Layout(Search(0, u), y.open - {u}, y.found + [u]);
    CostBound(z.open);
    RegistersAll(z, a[n..] + b);
  }

  lemma {:induction false} PrefixFaithful(y: Layout, a: seq<Outcome>, b: seq<Outcome>)
    requires LayoutFaithful(y, a + b)
    ensures LayoutFaithful(y, a)
    decreases |a|
  {
    hide Reliable, LayoutStep;
    if a != [] && Asking(y.search) {
      assert (a + b)[0] == a[0] && (a + b)[1..] == a[1..] + b;
      PrefixFaithful(LayoutStep(y, a[0]), a[1..], b);
    }
  }
}
