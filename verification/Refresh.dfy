/** The refresh scheduler: two refresh classes (locomotives with a recent command,
    and the others) alternate; each walks round robin through the packet pools of
    the enabled protocols. */
module Refresh {
  import opened Options
  import opened Sequences

  /** Protocols are 0 (Maerklin), 1 (DCC) and 2 (mfx).
      tRefreshInfo: per protocol the next pool index, whose turn it is, and which
      function packet the Maerklin pool sends in this cycle. */
  datatype Info = Info(last: seq<nat>, proto: nat, fx: int)

  /** Pool sizes and the enabled protocols. */
  datatype Layout = Layout(n: seq<nat>, enabled: set<nat>)

  predicate GoodLayout(y: Layout) {
    |y.n| == 3 && y.enabled != {} && forall p :: p in y.enabled ==> p < 3
  }

  /** Only the protocol whose turn it is can be inside its pool. */
  predicate Inv(s: Info, y: Layout)
    requires GoodLayout(y)
  {
    && |s.last| == 3 && s.proto < 3 && -1 <= s.fx < 4
    && (forall p :: 0 <= p < 3 && p != s.proto ==> s.last[p] == 0)
    && (s.last[s.proto] < y.n[s.proto] || (y.n[s.proto] == 0 && s.last[s.proto] == 0))
  }

  /** For every protocol and pool index: does the locomotive belong to this class? */
  type Classes = seq<seq<bool>>

  predicate Fits(c: Classes, y: Layout)
    requires GoodLayout(y)
  {
    |c| == 3 && forall p :: 0 <= p < 3 ==> |c[p]| == y.n[p]
  }

  function Negated(c: Classes): (d: Classes)
    ensures |d| == |c| && forall p :: 0 <= p < |c| ==> |d[p]| == |c[p]|
    ensures forall p, i :: 0 <= p < |c| && 0 <= i < |c[p]| ==> d[p][i] == !c[p][i]
  {
    seq(|c|, p requires 0 <= p < |c| => seq(|c[p]|, i requires 0 <= i < |c[p]| => !c[p][i]))
  }

  /** The next eligible index from i on, or the pool size. */
  function NextFrom(elig: seq<bool>, i: nat): (j: nat)
    requires i <= |elig|
    ensures i <= j <= |elig| && (j < |elig| ==> elig[j])
    ensures forall k :: i <= k < j ==> !elig[k]
    decreases |elig| - i
  {
    if i == |elig| || elig[i] then i else NextFrom(elig, i + 1)
  }

  /** The next enabled protocol in cyclic order. */
  function NextEnabled(enabled: set<nat>, p: nat): nat {
    if (p + 1) % 3 in enabled then (p + 1) % 3
    else if (p + 2) % 3 in enabled then (p + 2) % 3
    else p
  }

  /** After a Maerklin cycle the next of four function packets comes up. */
  function NextFx(fx: int): int { if fx + 1 >= 4 then 0 else fx + 1 }

  /** One call of refresh_loco_one: the next state and the locomotive it serves. */
  function OneStep(s: Info, y: Layout, c: Classes): (r: (Info, Option<(nat, nat)>))
    requires GoodLayout(y) && Inv(s, y) && Fits(c, y)
    ensures GoodLayout(y) && Inv(r.0, y)
    ensures r.1.Some? ==> r.1.value.0 < 3 && r.1.value.1 < y.n[r.1.value.0]
  {
    var p := s.proto;
    var i := s.last[p];
    if y.n[p] == 0 then (s.(proto := NextEnabled(y.enabled, p)), None)
    else
      var sent := if c[p][i] then Some((p, i)) else None;
      var j := NextFrom(c[p], i + 1);
      if j < y.n[p] then (s.(last := s.last[p := j]), sent)
      else (Wrapped(s, y), sent)
  }

  /** The state after a cycle over a non-empty pool. */
  function Wrapped(s: Info, y: Layout): Info
    requires |s.last| == 3 && s.proto < 3
  {
    Info(s.last[s.proto := 0], NextEnabled(y.enabled, s.proto), if s.proto == 0 then NextFx(s.fx) else s.fx)
  }

  // ---------- the packets of a locomotive ----------

  /** Each locomotive gets its drive packet and one more: a function packet of
      Maerklin (number -1 is, in memory, the drive packet once more), the second
      buffer of DCC, or one function of mfx from F16 on. */
  datatype Packet = Drive(proto: nat, i: nat) | MaerklinFx(i: nat, k: int) | DccFx(i: nat) | MfxFx(i: nat, f: nat)

  /** glp->lastfunc takes the functions from F16 on in turn. */
  function NextFunc(f: nat, n_func: nat): nat {
    if f + 1 < 16 || f + 1 >= n_func then 16 else f + 1
  }

  /** The packets for locomotive i of protocol p, and the new lastfunc of the mfx
      locomotives, which have n_func functions. */
  function Packets(p: nat, i: nat, fx: int, n_func: seq<nat>, lastfunc: seq<nat>): (seq<Packet>, seq<nat>)
    requires p < 3 && |n_func| == |lastfunc| && (p == 2 ==> i < |lastfunc|)
  {
    if p == 0 then ([Drive(0, i), MaerklinFx(i, fx)], lastfunc)
    else if p == 1 then ([Drive(1, i), DccFx(i)], lastfunc)
    else if n_func[i] > 16 then
      var f := NextFunc(lastfunc[i], n_func[i]);
      ([Drive(2, i), MfxFx(i, f)], lastfunc[i := f])
    else ([Drive(2, i)], lastfunc)
  }

  /** What a call puts on the track. */
  function Transmitted(sent: Option<(nat, nat)>, fx: int, n_func: seq<nat>, lastfunc: seq<nat>): (seq<Packet>, seq<nat>)
    requires |n_func| == |lastfunc|
    requires sent.Some? ==> sent.value.0 < 3 && (sent.value.0 == 2 ==> sent.value.1 < |lastfunc|)
  {
    if sent.None? then ([], lastfunc) else Packets(sent.value.0, sent.value.1, fx, n_func, lastfunc)
  }

  // ---------- the methods ----------

  class RefreshInfo {
    var last: seq<nat>
    var last_refreshed_maerklin_fx: int
    var protocol_refresh: nat        // the exponent of the bit

    function State(): Info
      reads this
    {
      Info(last, protocol_refresh, last_refreshed_maerklin_fx)
    }

    constructor ()
      ensures State() == Info([0, 0, 0], 0, -1)
    {
      last := [0, 0, 0];
      last_refreshed_maerklin_fx := -1;
      protocol_refresh := 0;
    }

    /** The walk through one pool: send if eligible, then go on to the next
        eligible entry or back to the start. */
    method Walk(p: nat, n: nat, elig: seq<bool>) returns (sent: bool, complete: bool)
      requires |last| == 3 && p < 3 && last[p] < n == |elig|
      modifies this`last
      ensures sent == elig[old(last[p])]
      ensures var j := NextFrom(elig, old(last[p]) + 1);
              complete == (j == n) && last == old(last)[p := if j == n then 0 else j]
    {
      sent := elig[last[p]];
      complete := false;
      ghost var j := NextFrom(elig, last[p] + 1);
      var i := last[p] + 1;
      while i < n && !elig[i]
        invariant last[p] < i <= n && j == NextFrom(elig, i)
      {
        i := i + 1;
      }
      if i >= n {
        i := 0;
        complete := true;
      }
      last := last[p := i];
    }

    /** protocol_refresh <<= 1 until an enabled protocol comes up; after 31 shifts the
        bit is lost and the search starts again at bit 0. */
    method ShiftToEnabled(enabled: set<nat>)
      requires protocol_refresh < 3 && enabled != {} && forall p :: p in enabled ==> p < 3
      modifies this`protocol_refresh
      ensures protocol_refresh == NextEnabled(enabled, old(protocol_refresh))
    {
      var p := protocol_refresh;
      ghost var e := NextEnabled(enabled, p);
      assert e in enabled by { var x :| x in enabled; assert x in {0, 1, 2}; }
      var k: nat := (p + 1) % 32;
      while k !in enabled
        invariant k < 32
        invariant k > p ==> e >= k || e <= p        // not yet past the end
        invariant k <= p ==> k <= e <= p            // started again at bit 0
        decreases if k <= e then e - k else 32 - k + e
      {
        k := (k + 1) % 32;
      }
      protocol_refresh := k;
    }

    /** The two packets of locomotive i of protocol p. */
    method SendPackets(p: nat, i: nat, n_func: seq<nat>, lastfunc: array<nat>) returns (packets: seq<Packet>)
      requires p < 3 && |n_func| == lastfunc.Length && (p == 2 ==> i < lastfunc.Length)
      modifies lastfunc
      ensures (packets, lastfunc[..]) == Packets(p, i, last_refreshed_maerklin_fx, n_func, old(lastfunc[..]))
    {
      packets := [Drive(p, i)];
      if p == 0 {
        packets := [Drive(p, i), MaerklinFx(i, last_refreshed_maerklin_fx)];
      } else if p == 1 {
        packets := [Drive(p, i), DccFx(i)];
      } else if p == 2 {
        if n_func[i] > 16 {
          lastfunc[i] := lastfunc[i] + 1;
          if lastfunc[i] < 16 || lastfunc[i] >= n_func[i] {
            lastfunc[i] := 16;
          }
          packets := [Drive(p, i), MfxFx(i, lastfunc[i])];
          assert lastfunc[..] == old(lastfunc[..])[i := lastfunc[i]];
        }
      }
    }

    /** refresh_loco_one for the class c. */
    method RefreshLocoOne(y: Layout, c: Classes, n_func: seq<nat>, lastfunc: array<nat>)
      returns (sent: Option<(nat, nat)>, packets: seq<Packet>)
      requires GoodLayout(y) && Inv(State(), y) && Fits(c, y) && |n_func| == lastfunc.Length == y.n[2]
      modifies this, lastfunc
      ensures GoodLayout(y) && Inv(State(), y)
      ensures (State(), sent) == OneStep(old(State()), y, c)
      ensures (packets, lastfunc[..])
           == Transmitted(sent, old(last_refreshed_maerklin_fx), n_func, old(lastfunc[..]))
    {
      hide NextFrom;
      var p := protocol_refresh;
      var complete := true;
      sent := None;
      packets := [];
      if y.n[p] > 0 {
        var i, yes := last[p], false;
        yes, complete := Walk(p, y.n[p], c[p]);
        if yes {
          sent := Some((p, i));
          packets := SendPackets(p, i, n_func, lastfunc);
        }
        if p == 0 && complete {
          last_refreshed_maerklin_fx := last_refreshed_maerklin_fx + 1;
          if last_refreshed_maerklin_fx >= 4 {
            last_refreshed_maerklin_fx := 0;
          }
        }
      }
      if complete {
        ShiftToEnabled(y.enabled);
      }
    }
  }

  /** Both refresh cycles, and whether the fast one was served last. */
  datatype Sched = Sched(slow: Info, fast: Info, lastFast: bool)

  predicate SchedInv(s: Sched, y: Layout)
    requires GoodLayout(y)
  {
    Inv(s.slow, y) && Inv(s.fast, y)
  }

  /** One call of refresh_loco: the next state and the locomotives it serves. */
  function Step(s: Sched, y: Layout, recent: Classes): (r: (Sched, seq<(nat, nat)>))
    requires GoodLayout(y) && SchedInv(s, y) && Fits(recent, y)
    ensures SchedInv(r.0, y) && |r.1| <= 1
    ensures r.1 != [] ==> r.1[0].0 < 3 && r.1[0].1 < y.n[r.1[0].0]
  {
    var others := Negated(recent);
    if s.lastFast then
      var (t, sent) := OneStep(s.slow, y, others);
      (Sched(t, s.fast, false), Listed(sent))
    else
      var (f, fsent) := OneStep(s.fast, y, recent);
      if fsent.Some? then (Sched(s.slow, f, true), Listed(fsent))
      else
        var (t, sent) := OneStep(s.slow, y, others);
        (Sched(t, f, false), Listed(sent))
  }

  function Listed(sent: Option<(nat, nat)>): seq<(nat, nat)> {
    if sent.Some? then [sent.value] else []
  }

  class Refresher {
    const slow: RefreshInfo
    const fast: RefreshInfo
    var lastRefreshFast: bool

    function State(): Sched
      reads this, slow, fast
    {
      Sched(slow.State(), fast.State(), lastRefreshFast)
    }

    constructor ()
      ensures fresh(slow) && fresh(fast) && slow != fast
      ensures State() == Sched(Info([0, 0, 0], 0, -1), Info([0, 0, 0], 0, -1), false)
    {
      slow := new RefreshInfo();
      fast := new RefreshInfo();
      lastRefreshFast := false;
    }

    /** refresh_loco; false when there was no locomotive to refresh. */
    method RefreshLoco(y: Layout, recent: Classes, n_func: seq<nat>, lastfunc: array<nat>)
      returns (any: bool, sent: seq<(nat, nat)>, packets: seq<Packet>)
      requires slow != fast && GoodLayout(y) && SchedInv(State(), y) && Fits(recent, y)
      requires |n_func| == lastfunc.Length == y.n[2]
      modifies this, slow, fast, lastfunc
      ensures GoodLayout(y) && SchedInv(State(), y)
      ensures (State(), sent) == Step(old(State()), y, recent) && any == (sent != [])
      ensures any ==>
                var fx := if lastRefreshFast then old(fast.last_refreshed_maerklin_fx)
                          else old(slow.last_refreshed_maerklin_fx);
                (packets, lastfunc[..]) == Transmitted(Some(sent[0]), fx, n_func, old(lastfunc[..]))
      ensures !any ==> packets == [] && lastfunc[..] == old(lastfunc[..])
    {
      hide OneStep, Packets;
      var o;
      if lastRefreshFast {
        lastRefreshFast := false;
        o, packets := slow.RefreshLocoOne(y, Negated(recent), n_func, lastfunc);
      } else {
        o, packets := fast.RefreshLocoOne(y, recent, n_func, lastfunc);
        if o.Some? {
          lastRefreshFast := true;
        } else {
          o, packets := slow.RefreshLocoOne(y, Negated(recent), n_func, lastfunc);
        }
      }
      any := o.Some?;
      sent := Listed(o);
    }
  }

  // ---------- a cycle over one pool ----------

  /** What the calls of one cycle send from index i on. */
  function CycleSends(elig: seq<bool>, i: nat): seq<nat>
    requires i < |elig|
    decreases |elig| - i
  {
    var j := NextFrom(elig, i + 1);
    (if elig[i] then [i] else []) + (if j < |elig| then CycleSends(elig, j) else [])
  }

  function CycleCalls(elig: seq<bool>, i: nat): nat
    requires i < |elig|
    decreases |elig| - i
  {
    var j := NextFrom(elig, i + 1);
    1 + if j < |elig| then CycleCalls(elig, j) else 0
  }

  function Eligible(elig: seq<bool>, i: nat): seq<nat>
    requires i <= |elig|
    decreases |elig| - i
  {
    if i == |elig| then [] else (if elig[i] then [i] else []) + Eligible(elig, i + 1)
  }

  lemma {:induction false} SkipIneligible(elig: seq<bool>, i: nat)
    requires i <= |elig|
    ensures Eligible(elig, i) == Eligible(elig, NextFrom(elig, i))
    decreases |elig| - i
  {
    if i < |elig| && !elig[i] { SkipIneligible(elig, i + 1); }
  }

  lemma {:induction false} SendsEligible(elig: seq<bool>, i: nat)
    requires i < |elig|
    ensures CycleSends(elig, i) == Eligible(elig, i)
    ensures CycleCalls(elig, i) <= |elig| - i
    decreases |elig| - i
  {
    var j := NextFrom(elig, i + 1);
    SkipIneligible(elig, i + 1);
    if j < |elig| { SendsEligible(elig, j); }
  }

  /** Eligible lists exactly the eligible indices, each once, in ascending order. */
  lemma {:induction false} EligibleIs(elig: seq<bool>, i: nat)
    requires i <= |elig|
    ensures forall k :: k in Eligible(elig, i) <==> i <= k < |elig| && elig[k]
    ensures forall a, b :: 0 <= a < b < |Eligible(elig, i)| ==> Eligible(elig, i)[a] < Eligible(elig, i)[b]
    decreases |elig| - i
  {
    if i < |elig| {
      EligibleIs(elig, i + 1);
      var s, t := Eligible(elig, i), Eligible(elig, i + 1);
      assert s == (if elig[i] then [i] else []) + t;
      forall a, b | 0 <= a < b < |s| ensures s[a] < s[b] {
        assert s[b] in t && (a > 0 || !elig[i] ==> s[a] in t);
      }
    }
  }

  /** n calls of refresh_loco_one with fixed classes: the state and the locomotives served. */
  function Calls(s: Info, y: Layout, c: Classes, n: nat): (r: (Info, seq<(nat, nat)>))
    requires GoodLayout(y) && Inv(s, y) && Fits(c, y)
    ensures Inv(r.0, y)
    decreases n
  {
    if n == 0 then (s, [])
    else
      var (t, a) := OneStep(s, y, c);
      var (u, b) := Calls(t, y, c, n - 1);
      (u, Listed(a) + b)
  }

  /** Pool indices as locomotives of protocol p. */
  function OfPool(p: nat, at: seq<nat>): (r: seq<(nat, nat)>)
    ensures |r| == |at| && forall k :: 0 <= k < |at| ==> r[k] == (p, at[k])
  {
    seq(|at|, k requires 0 <= k < |at| => (p, at[k]))
  }

  lemma OneCall(s: Info, y: Layout, c: Classes, n: nat)
    requires GoodLayout(y) && Inv(s, y) && Fits(c, y) && n > 0
    ensures var (t, a) := OneStep(s, y, c);
            Calls(s, y, c, n) == (Calls(t, y, c, n - 1).0, Listed(a) + Calls(t, y, c, n - 1).1)
  {
  }

  lemma StepInPool(s: Info, y: Layout, c: Classes)
    requires GoodLayout(y) && Inv(s, y) && Fits(c, y) && y.n[s.proto] > 0
    ensures var p, i := s.proto, s.last[s.proto];
            var j := NextFrom(c[p], i + 1);
            OneStep(s, y, c) == (if j < y.n[p] then s.(last := s.last[p := j]) else Wrapped(s, y),
                                 if c[p][i] then Some((p, i)) else None)
  {
  }

  lemma CycleUnfolds(elig: seq<bool>, i: nat)
    requires i < |elig|
    ensures var j := NextFrom(elig, i + 1);
            && CycleSends(elig, i) == (if elig[i] then [i] else []) + (if j < |elig| then CycleSends(elig, j) else [])
            && CycleCalls(elig, i) == 1 + (if j < |elig| then CycleCalls(elig, j) else 0)
  {
  }

  lemma PoolFirst(p: nat, i: nat, yes: bool, at: seq<nat>)
    ensures OfPool(p, (if yes then [i] else []) + at) == Listed(if yes then Some((p, i)) else None) + OfPool(p, at)
  {
  }

  /** The calls of a cycle, from anywhere in the pool: they serve what CycleSends
      lists and hand over to the next enabled protocol. */
  lemma {:induction false} CycleOfCalls(s: Info, y: Layout, c: Classes)
    requires GoodLayout(y) && Inv(s, y) && Fits(c, y) && y.n[s.proto] > 0
    ensures var elig, i := c[s.proto], s.last[s.proto];
            Calls(s, y, c, CycleCalls(elig, i)) == (Wrapped(s, y), OfPool(s.proto, CycleSends(elig, i)))
    decreases y.n[s.proto] - s.last[s.proto]
  {
    hide Calls, OneStep, CycleCalls, CycleSends, NextFrom, NextEnabled, OfPool, NextFx;
    var p, i := s.proto, s.last[s.proto];
    var j := NextFrom(c[p], i + 1);
    StepInPool(s, y, c);
    CycleUnfolds(c[p], i);
    OneCall(s, y, c, CycleCalls(c[p], i));
    if j < y.n[p] {
      var t := s.(last := s.last[p := j]);
      CycleOfCalls(t, y, c);
      assert t.last[p := 0] == s.last[p := 0];
      PoolFirst(p, i, c[p][i], CycleSends(c[p], j));
    } else {
      PoolFirst(p, i, c[p][i], []);
      NoCalls(Wrapped(s, y), y, c);
      assert OfPool(p, []) == [];
    }
  }

  lemma NoCalls(s: Info, y: Layout, c: Classes)
    requires GoodLayout(y) && Inv(s, y) && Fits(c, y)
    ensures Calls(s, y, c, 0) == (s, [])
  {
  }

  /** With fixed classes the calls of a cycle over a pool serve every eligible
      locomotive exactly once, in pool order, take at most as many calls as the pool
      has entries, and end with the turn of the next enabled protocol. */
  lemma CycleServesAll(s: Info, y: Layout, c: Classes) returns (n: nat)
    requires GoodLayout(y) && Inv(s, y) && Fits(c, y) && y.n[s.proto] > 0 && s.last[s.proto] == 0
    ensures n <= y.n[s.proto]
    ensures Calls(s, y, c, n) == (Wrapped(s, y), OfPool(s.proto, Eligible(c[s.proto], 0)))
  {
    n := CycleCalls(c[s.proto], 0);
    CycleOfCalls(s, y, c);
    SendsEligible(c[s.proto], 0);
  }

  /** During a cycle the Maerklin function packet stays the same one. */
  lemma {:induction false} SameFx(s: Info, y: Layout, c: Classes, k: nat)
    requires GoodLayout(y) && Inv(s, y) && Fits(c, y) && y.n[s.proto] > 0
    requires k < CycleCalls(c[s.proto], s.last[s.proto])
    ensures Calls(s, y, c, k).0.fx == s.fx && Calls(s, y, c, k).0.proto == s.proto
    decreases k
  {
    hide Calls, OneStep, NextFrom, NextEnabled, NextFx, CycleSends, CycleCalls, Listed;
    if k == 0 {
      NoCalls(s, y, c);
    } else {
      var j := NextFrom(c[s.proto], s.last[s.proto] + 1);
      StepInPool(s, y, c);
      CycleUnfolds(c[s.proto], s.last[s.proto]);
      OneCall(s, y, c, k);
      assert j < y.n[s.proto];
      var t := s.(last := s.last[s.proto := j]);
      assert t.last[t.proto] == j && t == OneStep(s, y, c).0;
      SameFx(t, y, c, k - 1);
    }
  }

  lemma {:induction false} CallsJoin(s: Info, y: Layout, c: Classes, m: nat, n: nat)
    requires GoodLayout(y) && Inv(s, y) && Fits(c, y)
    ensures Calls(s, y, c, m + n).0 == Calls(Calls(s, y, c, m).0, y, c, n).0
    decreases m
  {
    hide OneStep;
    if m > 0 { CallsJoin(OneStep(s, y, c).0, y, c, m - 1, n); }
  }

  /** At the start of a cycle. */
  predicate AtStart(s: Info) { s.last == [0, 0, 0] }

  /** The calls of a whole cycle, over an empty pool too. */
  lemma CycleEnd(s: Info, y: Layout, c: Classes) returns (n: nat)
    requires GoodLayout(y) && Inv(s, y) && Fits(c, y) && AtStart(s)
    ensures n <= AtLeast1(y.n[s.proto])
    ensures Calls(s, y, c, n).0 == Info(s.last, NextEnabled(y.enabled, s.proto),
                                        if s.proto == 0 && y.n[0] > 0 then NextFx(s.fx) else s.fx)
  {
    hide NextEnabled, NextFx;
    assert s.last[s.proto := 0] == s.last;
    if y.n[s.proto] > 0 {
      n := CycleServesAll(s, y, c);
    } else {
      n := 1;
      OneCall(s, y, c, 1);
      NoCalls(OneStep(s, y, c).0, y, c);
    }
  }

  lemma NextFxIs(fx: int)
    requires -1 <= fx < 4
    ensures NextFx(fx) == (fx + 1) % 4
  {
  }

  /** One round over all enabled protocols leads from one Maerklin cycle to the next,
      with the next of the four function packets. */
  lemma Round(s: Info, y: Layout, c: Classes) returns (n: nat)
    requires GoodLayout(y) && Inv(s, y) && Fits(c, y) && AtStart(s)
    requires s.proto == 0 && 0 in y.enabled && y.n[0] > 0
    ensures n <= Total(y) && Calls(s, y, c, n).0 == s.(fx := (s.fx + 1) % 4)
  {
    NextFxIs(s.fx);
    hide Calls, NextFx, OneStep, Total;
    n := FullRound(s, y, c);
  }

  lemma FullRound(s: Info, y: Layout, c: Classes) returns (n: nat)
    requires GoodLayout(y) && Inv(s, y) && Fits(c, y) && AtStart(s)
    requires s.proto == 0 && 0 in y.enabled && y.n[0] > 0
    ensures n <= Total(y) && Calls(s, y, c, n).0 == s.(fx := NextFx(s.fx))
  {
    hide Calls, NextFx, OneStep;
    n := CycleEnd(s, y, c);
    var t := Calls(s, y, c, n).0;
    if t.proto != 0 {
      var m := CycleEnd(t, y, c);
      CallsJoin(s, y, c, n, m);
      n := n + m;
      var u := Calls(s, y, c, n).0;
      if u.proto != 0 {
        m := CycleEnd(u, y, c);
        CallsJoin(s, y, c, n, m);
        n := n + m;
      }
    }
  }

  /** Maerklin cycles until function packet k is due. */
  function CyclesTo(fx: int, k: int): (n: nat)
    requires -1 <= fx < 4 && 0 <= k < 4
    ensures n <= 4 && (n == 0 <==> fx == k) && (n > 0 ==> CyclesTo(NextFx(fx), k) == n - 1)
    decreases if fx == k then 0 else if fx < k then k - fx else 4 + k - fx
  {
    if fx == k then 0 else 1 + CyclesTo(NextFx(fx), k)
  }

  lemma {:induction false} FxComesUp(s: Info, y: Layout, c: Classes, k: nat) returns (n: nat)
    requires GoodLayout(y) && Inv(s, y) && Fits(c, y) && AtStart(s)
    requires s.proto == 0 && 0 in y.enabled && y.n[0] > 0 && k < 4
    ensures n <= Total(y) * CyclesTo(s.fx, k) && Calls(s, y, c, n).0 == s.(fx := k)
    decreases CyclesTo(s.fx, k)
  {
    hide Calls, NextFx, CyclesTo, Total;
    if s.fx == k {
      n := 0;
      NoCalls(s, y, c);
    } else {
      var m := FullRound(s, y, c);
      var t := s.(fx := NextFx(s.fx));
      n := FxComesUp(t, y, c, k);
      CallsJoin(s, y, c, m, n);
      n := m + n;
      Times(Total(y), CyclesTo(s.fx, k));
    }
  }

  lemma Times(a: nat, k: nat)
    requires k > 0
    ensures a * k == a + a * (k - 1)
  {
  }

  /** Within a cycle there is a call for every eligible locomotive from here on. */
  lemma {:induction false} ServedInCycle(s: Info, y: Layout, c: Classes, i: nat) returns (m: nat)
    requires GoodLayout(y) && Inv(s, y) && Fits(c, y)
    requires s.last[s.proto] <= i < y.n[s.proto] && c[s.proto][i]
    ensures m < y.n[s.proto]
    ensures var t := Calls(s, y, c, m).0;
            t.fx == s.fx && t.proto == s.proto && t.last[s.proto] == i
            && OneStep(t, y, c).1 == Some((s.proto, i))
    ensures m <= i - s.last[s.proto]
    decreases i - s.last[s.proto]
  {
    hide Calls, OneStep, NextEnabled, NextFx;
    StepInPool(s, y, c);
    if s.last[s.proto] == i {
      m := 0;
      NoCalls(s, y, c);
    } else {
      var j := NextFrom(c[s.proto], s.last[s.proto] + 1);
      assert j <= i;
      m := ServedInCycle(s.(last := s.last[s.proto := j]), y, c, i);
      m := m + 1;
      OneCall(s, y, c, m);
    }
  }

  /** From the start of a Maerklin cycle on, every eligible locomotive of the pool is
      sent its drive packet and each of its four function packets within five rounds
      of calls. */
  lemma AllFx(s: Info, y: Layout, c: Classes, n_func: seq<nat>, lastfunc: seq<nat>, i: nat, k: nat) returns (n: nat)
    requires GoodLayout(y) && Inv(s, y) && Fits(c, y) && AtStart(s)
    requires s.proto == 0 && 0 in y.enabled && i < y.n[0] && c[0][i] && k < 4
    requires |n_func| == |lastfunc| == y.n[2]
    ensures n <= 5 * Total(y)
    ensures var t := Calls(s, y, c, n).0;
            && OneStep(t, y, c).1 == Some((0, i)) && t.fx == k
            && Transmitted(OneStep(t, y, c).1, t.fx, n_func, lastfunc).0 == [Drive(0, i), MaerklinFx(i, k)]
  {
    MaerklinSent(i, k, n_func, lastfunc);
    hide Transmitted, Calls, OneStep, Total;
    n := FxServed(s, y, c, i, k);
  }

  lemma FxServed(s: Info, y: Layout, c: Classes, i: nat, k: nat) returns (n: nat)
    requires GoodLayout(y) && Inv(s, y) && Fits(c, y) && AtStart(s)
    requires s.proto == 0 && 0 in y.enabled && i < y.n[0] && c[0][i] && k < 4
    ensures n <= 5 * Total(y)
    ensures var t := Calls(s, y, c, n).0; OneStep(t, y, c).1 == Some((0, i)) && t.fx == k
  {
    hide Calls, OneStep, Total, GoodLayout, Fits, Inv, AtStart;
    PoolInTotal(y);
    OtherFx(s, y, k);
    var t := s.(fx := k);
    var m := ServedFromStart(t, y, c, i);
    n := FxWithin(s, y, c, k);
    ServedAfter(s, t, y, c, n, m, i);
    n := n + m;
  }

  lemma MaerklinSent(i: nat, k: int, n_func: seq<nat>, lastfunc: seq<nat>)
    requires |n_func| == |lastfunc|
    ensures Transmitted(Some((0, i)), k, n_func, lastfunc).0 == [Drive(0, i), MaerklinFx(i, k)]
  {
  }

  lemma ServedAfter(s: Info, t: Info, y: Layout, c: Classes, n: nat, m: nat, i: nat)
    requires GoodLayout(y) && Inv(s, y) && Inv(t, y) && Fits(c, y)
    requires Calls(s, y, c, n).0 == t && OneStep(Calls(t, y, c, m).0, y, c).1 == Some((0, i))
    ensures var u := Calls(s, y, c, n + m).0;
            OneStep(u, y, c).1 == Some((0, i)) && u.fx == Calls(t, y, c, m).0.fx
  {
    hide Calls, OneStep, GoodLayout, Fits, Inv;
    CallsJoin(s, y, c, n, m);
  }

  lemma OtherFx(s: Info, y: Layout, k: nat)
    requires GoodLayout(y) && Inv(s, y) && AtStart(s) && k < 4
    ensures Inv(s.(fx := k), y) && AtStart(s.(fx := k))
  {
  }

  lemma ServedFromStart(s: Info, y: Layout, c: Classes, i: nat) returns (m: nat)
    requires GoodLayout(y) && Inv(s, y) && Fits(c, y) && AtStart(s)
    requires s.proto == 0 && i < y.n[0] && c[0][i]
    ensures m < y.n[0]
    ensures OneStep(Calls(s, y, c, m).0, y, c).1 == Some((0, i)) && Calls(s, y, c, m).0.fx == s.fx
  {
    hide Calls, OneStep, NextFrom;
    m := ServedInCycle(s, y, c, i);
  }

  lemma FxWithin(s: Info, y: Layout, c: Classes, k: nat) returns (n: nat)
    requires GoodLayout(y) && Inv(s, y) && Fits(c, y) && AtStart(s)
    requires s.proto == 0 && 0 in y.enabled && y.n[0] > 0 && k < 4
    ensures n <= 4 * Total(y) && Calls(s, y, c, n).0 == s.(fx := k)
  {
    hide Calls, CyclesTo, Total, Fits;
    n := FxComesUp(s, y, c, k);
    TimesAtMost(Total(y), CyclesTo(s.fx, k));
  }

  lemma PoolInTotal(y: Layout)
    requires GoodLayout(y) && 0 in y.enabled
    ensures y.n[0] <= Total(y)
  {
  }

  lemma TimesAtMost(a: nat, k: nat)
    requires k <= 4
    ensures a * k <= 4 * a
  {
  }

  // ---------- no locomotive waits too long ----------

  function AtLeast1(n: nat): nat { if n == 0 then 1 else n }

  /** Calls that a cycle over protocol r can take. */
  function Weight(y: Layout, r: nat): nat
    requires GoodLayout(y) && r < 3
  {
    if r in y.enabled then AtLeast1(y.n[r]) else 0
  }

  function Total(y: Layout): nat
    requires GoodLayout(y)
  {
    Weight(y, 0) + Weight(y, 1) + Weight(y, 2)
  }

  /** Calls for the protocols strictly between p and q in cyclic order. */
  function Gap(y: Layout, p: nat, q: nat): nat
    requires GoodLayout(y) && p < 3 && q < 3
  {
    var a, b := (p + 1) % 3, (p + 2) % 3;
    if a == q then 0 else Weight(y, a) + if b == q then 0 else Weight(y, b)
  }

  /** A bound on the calls of refresh_loco_one until entry j of pool q is served. */
  function Dist(s: Info, y: Layout, q: nat, j: nat): (d: nat)
    requires GoodLayout(y) && Inv(s, y) && q < 3 && j < y.n[q]
    ensures d > 0
  {
    var p := s.proto;
    if p == q && s.last[p] <= j then j - s.last[p] + 1
    else AtLeast1(y.n[p]) - s.last[p] + Gap(y, p, q) + j + 1
  }

  /** Start-up serves one empty pool more when protocol 0 is not enabled. */
  function Bound(s: Info, y: Layout): nat
    requires GoodLayout(y) && Inv(s, y)
  {
    Total(y) + if s.proto in y.enabled then 0 else AtLeast1(y.n[s.proto])
  }

  lemma DistBound(s: Info, y: Layout, q: nat, j: nat)
    requires GoodLayout(y) && Inv(s, y) && q in y.enabled && j < y.n[q]
    ensures Dist(s, y, q, j) <= Bound(s, y)
  {
    var p := s.proto;
    assert q < 3;
    assert p == q || q == (p + 1) % 3 || q == (p + 2) % 3;
  }

  lemma GapNext(y: Layout, p: nat, q: nat)
    requires GoodLayout(y) && p < 3 && q in y.enabled
    ensures var e := NextEnabled(y.enabled, p);
            && e in y.enabled && e < 3
            && (e == q ==> Gap(y, p, q) == 0 || p == q)
            && (e != q ==> Gap(y, p, q) == Weight(y, e) + Gap(y, e, q))
            && (e == q == p ==> Gap(y, p, q) == 0)
  {
    assert q < 3;
  }

  /** Each call serves the entry or comes closer to it, whatever class the others
      are in. */
  lemma Closer(s: Info, y: Layout, c: Classes, q: nat, j: nat)
    requires GoodLayout(y) && Inv(s, y) && Fits(c, y) && q in y.enabled && j < y.n[q] && c[q][j]
    ensures var r := OneStep(s, y, c);
            r.1 == Some((q, j)) || Dist(r.0, y, q, j) < Dist(s, y, q, j)
  {
    assert q < 3;
    GapNext(y, s.proto, q);
  }

  function Run(s: Sched, y: Layout, cs: seq<Classes>): (r: (Sched, seq<(nat, nat)>))
    requires GoodLayout(y) && SchedInv(s, y) && forall t :: 0 <= t < |cs| ==> Fits(cs[t], y)
    ensures SchedInv(r.0, y)
    decreases |cs|
  {
    if cs == [] then (s, [])
    else
      var (s', a) := Step(s, y, cs[0]);
      var (s'', b) := Run(s', y, cs[1..]);
      (s'', a + b)
  }

  /** An old locomotive of an enabled protocol is served at least once in every
      2 * Bound calls of refresh_loco, even if the classes of all the others change
      from call to call. */
  lemma {:induction false} OldIsServed(s: Sched, y: Layout, cs: seq<Classes>, q: nat, j: nat)
    requires GoodLayout(y) && SchedInv(s, y) && q in y.enabled && j < y.n[q]
    requires forall t :: 0 <= t < |cs| ==> Fits(cs[t], y) && !cs[t][q][j]
    requires |cs| >= 2 * Dist(s.slow, y, q, j) - (if s.lastFast then 1 else 0)
    ensures (q, j) in Run(s, y, cs).1
    decreases |cs|
  {
    var (s', a) := Step(s, y, cs[0]);
    Closer(s.slow, y, Negated(cs[0]), q, j);
    if (q, j) !in a {
      OldIsServed(s', y, cs[1..], q, j);
    }
  }

  /** A recently commanded locomotive likewise, within one call more. */
  lemma {:induction false} RecentIsServed(s: Sched, y: Layout, cs: seq<Classes>, q: nat, j: nat)
    requires GoodLayout(y) && SchedInv(s, y) && q in y.enabled && j < y.n[q]
    requires forall t :: 0 <= t < |cs| ==> Fits(cs[t], y) && cs[t][q][j]
    requires |cs| >= 2 * Dist(s.fast, y, q, j) - 1 + (if s.lastFast then 1 else 0)
    ensures (q, j) in Run(s, y, cs).1
    decreases |cs|
  {
    var (s', a) := Step(s, y, cs[0]);
    Closer(s.fast, y, cs[0], q, j);
    if (q, j) !in a {
      RecentIsServed(s', y, cs[1..], q, j);
    }
  }

  /** The two bounds in one statement: with fixed pools nobody who keeps his class
      waits longer than twice a full round. */
  lemma NobodyStarves(s: Sched, y: Layout, cs: seq<Classes>, q: nat, j: nat, recent: bool)
    requires GoodLayout(y) && SchedInv(s, y) && q in y.enabled && j < y.n[q]
    requires s.slow.proto in y.enabled && s.fast.proto in y.enabled
    requires forall t :: 0 <= t < |cs| ==> Fits(cs[t], y) && cs[t][q][j] == recent
    requires |cs| >= 2 * Total(y)
    ensures (q, j) in Run(s, y, cs).1
  {
    DistBound(s.slow, y, q, j);
    DistBound(s.fast, y, q, j);
    if recent { RecentIsServed(s, y, cs, q, j); } else { OldIsServed(s, y, cs, q, j); }
  }

  /** After its first call a cycle is at an enabled protocol and stays there. */
  lemma AtEnabled(s: Info, y: Layout, c: Classes)
    requires GoodLayout(y) && Inv(s, y) && Fits(c, y)
    requires s.proto in y.enabled || y.n[s.proto] == 0
    ensures OneStep(s, y, c).0.proto in y.enabled
  {
    var x :| x in y.enabled;
    assert x in {0, 1, 2};
  }

  // ---------- the functions of mfx locomotives ----------

  /** How often a locomotive has been served. */
  function Served(sent: seq<(nat, nat)>, q: (nat, nat)): nat {
    if sent == [] then 0 else (if sent[0] == q then 1 else 0) + Served(sent[1..], q)
  }

  /** The packets of a run, as RefreshLoco sends them call by call, and lastfunc at
      its end. */
  function RunPackets(s: Sched, y: Layout, cs: seq<Classes>, n_func: seq<nat>, lastfunc: seq<nat>): (seq<Packet>, seq<nat>)
    requires GoodLayout(y) && SchedInv(s, y) && forall t :: 0 <= t < |cs| ==> Fits(cs[t], y)
    requires |n_func| == |lastfunc| == y.n[2]
    decreases |cs|
  {
    if cs == [] then ([], lastfunc)
    else
      var (s', a) := Step(s, y, cs[0]);
      var fx := if s'.lastFast then s.fast.fx else s.slow.fx;
      var (b, l) := Transmitted(if a == [] then None else Some(a[0]), fx, n_func, lastfunc);
      var (c, l') := RunPackets(s', y, cs[1..], n_func, l);
      (b + c, l')
  }

  /** How often a locomotive must be served until function g is refreshed. */
  function Turns(f: nat, n_func: nat, g: nat): (k: nat)
    requires 16 <= g < n_func
    ensures 1 <= k <= n_func - 16
  {
    if f + 1 < 16 || f + 1 >= n_func then g - 15
    else if g > f then g - f
    else n_func - 1 - f + (g - 15)
  }

  lemma NextTurn(f: nat, n_func: nat, g: nat)
    requires 16 <= g < n_func
    ensures var h := NextFunc(f, n_func);
            if h == g then Turns(f, n_func, g) == 1 else Turns(h, n_func, g) == Turns(f, n_func, g) - 1
  {
  }

  lemma {:induction false} FunctionSent(s: Sched, y: Layout, cs: seq<Classes>, n_func: seq<nat>, lastfunc: seq<nat>,
                                        i: nat, g: nat)
    requires GoodLayout(y) && SchedInv(s, y) && forall t :: 0 <= t < |cs| ==> Fits(cs[t], y)
    requires |n_func| == |lastfunc| == y.n[2] && i < y.n[2] && 16 <= g < n_func[i]
    requires Served(Run(s, y, cs).1, (2, i)) >= Turns(lastfunc[i], n_func[i], g)
    ensures MfxFx(i, g) in RunPackets(s, y, cs, n_func, lastfunc).0
    decreases |cs|
  {
    hide Step, Turns, NextFunc, Fits, SchedInv, Transmitted;
    assert cs != [];
    var (s', a) := Step(s, y, cs[0]);
    var fx := if s'.lastFast then s.fast.fx else s.slow.fx;
    var one := if a == [] then None else Some(a[0]);
    var (b, l) := Transmitted(one, fx, n_func, lastfunc);
    ServedFirst(a, Run(s', y, cs[1..]).1, (2, i));
    NextTurn(lastfunc[i], n_func[i], g);
    OneTurn(one, fx, n_func, lastfunc, i);
    if !(one == Some((2, i)) && NextFunc(lastfunc[i], n_func[i]) == g) {
      FunctionSent(s', y, cs[1..], n_func, l, i, g);
    }
  }

  /** A locomotive that is served gets its next function, any other keeps its place. */
  lemma OneTurn(sent: Option<(nat, nat)>, fx: int, n_func: seq<nat>, lastfunc: seq<nat>, i: nat)
    requires |n_func| == |lastfunc| && i < |lastfunc| && n_func[i] > 16
    requires sent.Some? ==> sent.value.0 < 3 && (sent.value.0 == 2 ==> sent.value.1 < |lastfunc|)
    ensures var (b, l) := Transmitted(sent, fx, n_func, lastfunc);
            && |l| == |lastfunc|
            && (if sent == Some((2, i)) then
                  var f := NextFunc(lastfunc[i], n_func[i]);
                  MfxFx(i, f) in b && l[i] == f
                else l[i] == lastfunc[i])
  {
    hide NextFunc;
    var (b, l) := Transmitted(sent, fx, n_func, lastfunc);
    if sent == Some((2, i)) { assert b[1] == MfxFx(i, NextFunc(lastfunc[i], n_func[i])); }
  }

  lemma ServedFirst(a: seq<(nat, nat)>, b: seq<(nat, nat)>, q: (nat, nat))
    requires |a| <= 1
    ensures Served(a + b, q) == (if a != [] && a[0] == q then 1 else 0) + Served(b, q)
  {
    if a == [] {
      assert a + b == b;
    } else {
      assert (a + b)[1..] == b;
    }
  }

  lemma {:induction false} ServedConcat(a: seq<(nat, nat)>, b: seq<(nat, nat)>, q: (nat, nat))
    ensures Served(a + b, q) == Served(a, q) + Served(b, q)
    ensures q in a ==> Served(a, q) > 0
    decreases |a|
  {
    if a == [] {
      assert a + b == b;
    } else {
      assert (a + b)[1..] == a[1..] + b;
      ServedConcat(a[1..], b, q);
    }
  }

  predicate AllFit(cs: seq<Classes>, y: Layout)
    requires GoodLayout(y)
  {
    forall t :: 0 <= t < |cs| ==> Fits(cs[t], y)
  }

  lemma FitParts(a: seq<Classes>, b: seq<Classes>, y: Layout)
    requires GoodLayout(y) && AllFit(a + b, y)
    ensures AllFit(a, y) && AllFit(b, y)
  {
    hide Fits;
    forall t | 0 <= t < |a| ensures Fits(a[t], y) { assert a[t] == (a + b)[t]; }
    forall t | 0 <= t < |b| ensures Fits(b[t], y) { assert b[t] == (a + b)[|a| + t]; }
  }

  lemma {:induction false} RunSplit(s: Sched, y: Layout, a: seq<Classes>, b: seq<Classes>)
    requires GoodLayout(y) && SchedInv(s, y) && AllFit(a, y) && AllFit(b, y) && AllFit(a + b, y)
    ensures Run(s, y, a + b).1 == Run(s, y, a).1 + Run(Run(s, y, a).0, y, b).1
    decreases |a|
  {
    hide Step, Fits, SchedInv;
    if a == [] {
      assert a + b == b;
      assert [] + Run(s, y, b).1 == Run(s, y, b).1;
    } else {
      var rest := a[1..];
      assert a == [a[0]] + rest && (a + b)[0] == a[0] && (a + b)[1..] == rest + b;
      FitParts([a[0]], rest, y);
      FitParts([a[0]], rest + b, y);
      var (s', x) := Step(s, y, a[0]);
      RunSplit(s', y, rest, b);
      Assoc(x, Run(s', y, rest).1, Run(Run(s', y, rest).0, y, b).1);
    }
  }

  lemma {:induction false} StaysEnabled(s: Sched, y: Layout, cs: seq<Classes>)
    requires GoodLayout(y) && SchedInv(s, y) && forall t :: 0 <= t < |cs| ==> Fits(cs[t], y)
    requires s.slow.proto in y.enabled && s.fast.proto in y.enabled
    ensures var r := Run(s, y, cs).0; r.slow.proto in y.enabled && r.fast.proto in y.enabled
    decreases |cs|
  {
    if cs != [] {
      AtEnabled(s.slow, y, Negated(cs[0]));
      AtEnabled(s.fast, y, cs[0]);
      hide OneStep, Negated;
      StaysEnabled(Step(s, y, cs[0]).0, y, cs[1..]);
    }
  }

  /** k times as many calls serve a locomotive that keeps its class k times. */
  lemma {:induction false} ServedOften(s: Sched, y: Layout, cs: seq<Classes>, q: nat, j: nat, recent: bool, k: nat)
    requires GoodLayout(y) && SchedInv(s, y) && q in y.enabled && j < y.n[q]
    requires s.slow.proto in y.enabled && s.fast.proto in y.enabled
    requires forall t :: 0 <= t < |cs| ==> Fits(cs[t], y) && cs[t][q][j] == recent
    requires |cs| >= 2 * Total(y) * k
    ensures Served(Run(s, y, cs).1, (q, j)) >= k
    decreases k
  {
    hide Step, Run, Served, Total;
    if k > 0 {
      Times(2 * Total(y), k);
      TimesNat(2 * Total(y), k - 1);
      var a, b := cs[..2 * Total(y)], cs[2 * Total(y)..];
      assert cs == a + b;
      FitParts(a, b, y);
      RunSplit(s, y, a, b);
      NobodyStarves(s, y, a, q, j, recent);
      StaysEnabled(s, y, a);
      ServedOften(Run(s, y, a).0, y, b, q, j, recent, k - 1);
      ServedConcat(Run(s, y, a).1, Run(Run(s, y, a).0, y, b).1, (q, j));
    }
  }

  lemma TimesNat(a: nat, k: nat)
    ensures a * k >= 0
  {
  }

  /** Every function from F16 on of an mfx locomotive that keeps its class is
      refreshed in every 2 * Total * (n_func - 16) calls of refresh_loco, wherever
      its lastfunc stood. */
  lemma AllFuncs(s: Sched, y: Layout, cs: seq<Classes>, n_func: seq<nat>, lastfunc: seq<nat>, i: nat, g: nat, recent: bool)
    requires GoodLayout(y) && SchedInv(s, y) && 2 in y.enabled && i < y.n[2]
    requires s.slow.proto in y.enabled && s.fast.proto in y.enabled
    requires forall t :: 0 <= t < |cs| ==> Fits(cs[t], y) && cs[t][2][i] == recent
    requires |n_func| == |lastfunc| == y.n[2] && 16 <= g < n_func[i]
    requires |cs| >= 2 * Total(y) * (n_func[i] - 16)
    ensures MfxFx(i, g) in RunPackets(s, y, cs, n_func, lastfunc).0
  {
    hide Step, Run, Total, RunPackets, Served, Fits, SchedInv, Turns;
    ServedOften(s, y, cs, 2, i, recent, n_func[i] - 16);
    FunctionSent(s, y, cs, n_func, lastfunc, i, g);
  }

  // ---------- what a served locomotive gets ----------

  function Whom(k: Packet): (nat, nat) {
    match k
    case Drive(p, i) => (p, i)
    case MaerklinFx(i, _) => (0, i)
    case DccFx(i) => (1, i)
    case MfxFx(i, _) => (2, i)
  }

  /** The locomotives of the drive packets, or of the others, in a transmission. */
  function Addressees(ps: seq<Packet>, drive: bool): seq<(nat, nat)> {
    if ps == [] then []
    else (if ps[0].Drive? == drive then [Whom(ps[0])] else []) + Addressees(ps[1..], drive)
  }

  /** Those that get a second packet: all but mfx locomotives of up to 16 functions. */
  function WithSecond(sent: seq<(nat, nat)>, n_func: seq<nat>): seq<(nat, nat)> {
    if sent == [] then []
    else
      (if sent[0].0 == 2 && sent[0].1 < |n_func| && n_func[sent[0].1] <= 16 then [] else [sent[0]])
      + WithSecond(sent[1..], n_func)
  }

  lemma {:induction false} AddresseesConcat(a: seq<Packet>, b: seq<Packet>, drive: bool)
    ensures Addressees(a + b, drive) == Addressees(a, drive) + Addressees(b, drive)
    decreases |a|
  {
    if a == [] {
      assert a + b == b;
    } else {
      assert (a + b)[0] == a[0] && (a + b)[1..] == a[1..] + b;
      hide Whom;
      AddresseesConcat(a[1..], b, drive);
      Assoc(if a[0].Drive? == drive then [Whom(a[0])] else [], Addressees(a[1..], drive), Addressees(b, drive));
    }
  }

  lemma OneAddressed(sent: Option<(nat, nat)>, fx: int, n_func: seq<nat>, lastfunc: seq<nat>)
    requires |n_func| == |lastfunc|
    requires sent.Some? ==> sent.value.0 < 3 && (sent.value.0 == 2 ==> sent.value.1 < |lastfunc|)
    ensures var ps := Transmitted(sent, fx, n_func, lastfunc).0;
            Addressees(ps, true) == Listed(sent) && Addressees(ps, false) == WithSecond(Listed(sent), n_func)
  {
    hide NextFunc;
    var ps := Transmitted(sent, fx, n_func, lastfunc).0;
    if sent.Some? {
      assert Listed(sent)[1..] == [];
      assert ps == [ps[0]] + ps[1..] && |ps[1..]| <= 1;
      AddresseesConcat([ps[0]], ps[1..], true);
      AddresseesConcat([ps[0]], ps[1..], false);
    }
  }

  lemma SecondFirst(a: seq<(nat, nat)>, b: seq<(nat, nat)>, n_func: seq<nat>)
    requires |a| <= 1
    ensures WithSecond(a + b, n_func) == WithSecond(a, n_func) + WithSecond(b, n_func)
  {
    if a == [] {
      assert a + b == b;
    } else {
      assert (a + b)[1..] == b && a[1..] == [];
    }
  }

  /** Over any run the drive packets go exactly to the locomotives served, one for
      each time and in that order, and so do the second packets. */
  lemma {:induction false} RunAddressees(s: Sched, y: Layout, cs: seq<Classes>, n_func: seq<nat>, lastfunc: seq<nat>)
    requires GoodLayout(y) && SchedInv(s, y) && forall t :: 0 <= t < |cs| ==> Fits(cs[t], y)
    requires |n_func| == |lastfunc| == y.n[2]
    ensures var ps, sent := RunPackets(s, y, cs, n_func, lastfunc).0, Run(s, y, cs).1;
            Addressees(ps, true) == sent && Addressees(ps, false) == WithSecond(sent, n_func)
    decreases |cs|
  {
    hide Step, Fits, SchedInv, Transmitted;
    if cs != [] {
      var (s', a) := Step(s, y, cs[0]);
      var fx := if s'.lastFast then s.fast.fx else s.slow.fx;
      var one := if a == [] then None else Some(a[0]);
      var (b, l) := Transmitted(one, fx, n_func, lastfunc);
      KeepsLength(one, fx, n_func, lastfunc);
      OneAddressed(one, fx, n_func, lastfunc);
      assert Listed(one) == a;
      var ps := RunPackets(s', y, cs[1..], n_func, l).0;
      hide Addressees, WithSecond;
      RunAddressees(s', y, cs[1..], n_func, l);
      AddresseesConcat(b, ps, true);
      AddresseesConcat(b, ps, false);
      SecondFirst(a, Run(s', y, cs[1..]).1, n_func);
    }
  }

  lemma KeepsLength(sent: Option<(nat, nat)>, fx: int, n_func: seq<nat>, lastfunc: seq<nat>)
    requires |n_func| == |lastfunc|
    requires sent.Some? ==> sent.value.0 < 3 && (sent.value.0 == 2 ==> sent.value.1 < |lastfunc|)
    ensures |Transmitted(sent, fx, n_func, lastfunc).1| == |lastfunc|
  {
  }

  /** Function packet numbers are in their ranges. */
  predicate InRange(k: Packet, n_func: seq<nat>) {
    match k
    case Drive(p, _) => p < 3
    case MaerklinFx(_, x) => -1 <= x < 4
    case DccFx(_) => true
    case MfxFx(i, f) => i < |n_func| && 16 <= f < n_func[i]
  }

  lemma OneInRange(sent: Option<(nat, nat)>, fx: int, n_func: seq<nat>, lastfunc: seq<nat>)
    requires |n_func| == |lastfunc| && -1 <= fx < 4
    requires sent.Some? ==> sent.value.0 < 3 && (sent.value.0 == 2 ==> sent.value.1 < |lastfunc|)
    ensures forall k :: k in Transmitted(sent, fx, n_func, lastfunc).0 ==> InRange(k, n_func)
  {
  }

  lemma FxInRange(s: Sched, y: Layout, c: Classes) returns (fx: int)
    requires GoodLayout(y) && SchedInv(s, y) && Fits(c, y)
    ensures fx == if Step(s, y, c).0.lastFast then s.fast.fx else s.slow.fx
    ensures -1 <= fx < 4
  {
    hide OneStep;
    fx := if Step(s, y, c).0.lastFast then s.fast.fx else s.slow.fx;
  }

  /** All packets of a run have their numbers in range. */
  lemma {:induction false} RunInRange(s: Sched, y: Layout, cs: seq<Classes>, n_func: seq<nat>, lastfunc: seq<nat>)
    requires GoodLayout(y) && SchedInv(s, y) && forall t :: 0 <= t < |cs| ==> Fits(cs[t], y)
    requires |n_func| == |lastfunc| == y.n[2]
    ensures forall k :: k in RunPackets(s, y, cs, n_func, lastfunc).0 ==> InRange(k, n_func)
    decreases |cs|
  {
    hide InRange;
    if cs != [] {
      var fx := FxInRange(s, y, cs[0]);
      hide Step, Fits, SchedInv, Transmitted;
      var (s', a) := Step(s, y, cs[0]);
      var one := if a == [] then None else Some(a[0]);
      KeepsLength(one, fx, n_func, lastfunc);
      OneInRange(one, fx, n_func, lastfunc);
      RunInRange(s', y, cs[1..], n_func, Transmitted(one, fx, n_func, lastfunc).1);
    }
  }

  lemma {:induction false} Addressee(ps: seq<Packet>, drive: bool, q: (nat, nat)) returns (k: Packet)
    requires q in Addressees(ps, drive)
    ensures k in ps && k.Drive? == drive && Whom(k) == q
    decreases |ps|
  {
    if ps[0].Drive? == drive && Whom(ps[0]) == q {
      k := ps[0];
    } else {
      k := Addressee(ps[1..], drive, q);
    }
  }

  lemma {:induction false} HasSecond(sent: seq<(nat, nat)>, n_func: seq<nat>, q: (nat, nat))
    requires q in sent && (q.0 == 2 ==> q.1 < |n_func| && n_func[q.1] > 16)
    ensures q in WithSecond(sent, n_func)
  {
    if sent[0] != q { HasSecond(sent[1..], n_func, q); }
  }

  /** Whoever is served in a run gets his drive packet. */
  lemma DriveSent(s: Sched, y: Layout, cs: seq<Classes>, n_func: seq<nat>, lastfunc: seq<nat>, p: nat, i: nat)
    requires GoodLayout(y) && SchedInv(s, y) && forall t :: 0 <= t < |cs| ==> Fits(cs[t], y)
    requires |n_func| == |lastfunc| == y.n[2] && (p, i) in Run(s, y, cs).1
    ensures Drive(p, i) in RunPackets(s, y, cs, n_func, lastfunc).0
  {
    RunAddressees(s, y, cs, n_func, lastfunc);
    hide Run, RunPackets, Addressees, SchedInv, Fits;
    var _ := Addressee(RunPackets(s, y, cs, n_func, lastfunc).0, true, (p, i));
  }

  /** And his second packet: a function packet of Maerklin, the second buffer of DCC,
      one of the functions from F16 on of mfx. */
  lemma SecondSent(s: Sched, y: Layout, cs: seq<Classes>, n_func: seq<nat>, lastfunc: seq<nat>, p: nat, i: nat)
    requires GoodLayout(y) && SchedInv(s, y) && forall t :: 0 <= t < |cs| ==> Fits(cs[t], y)
    requires |n_func| == |lastfunc| == y.n[2] && (p, i) in Run(s, y, cs).1
    ensures var ps := RunPackets(s, y, cs, n_func, lastfunc).0;
            && (p == 0 ==> exists k :: -1 <= k < 4 && MaerklinFx(i, k) in ps)
            && (p == 1 ==> DccFx(i) in ps)
            && (p == 2 && i < y.n[2] && n_func[i] > 16 ==> exists f: nat :: 16 <= f < n_func[i] && MfxFx(i, f) in ps)
  {
    RunAddressees(s, y, cs, n_func, lastfunc);
    RunInRange(s, y, cs, n_func, lastfunc);
    hide Run, RunPackets, Addressees, WithSecond, SchedInv, Fits, InRange;
    if p != 2 || (i < y.n[2] && n_func[i] > 16) {
      HasSecond(Run(s, y, cs).1, n_func, (p, i));
      SecondIs(RunPackets(s, y, cs, n_func, lastfunc).0, n_func, p, i);
    }
  }

  lemma SecondIs(ps: seq<Packet>, n_func: seq<nat>, p: nat, i: nat)
    requires (p, i) in Addressees(ps, false) && forall k :: k in ps ==> InRange(k, n_func)
    ensures p == 0 ==> exists k :: -1 <= k < 4 && MaerklinFx(i, k) in ps
    ensures p == 1 ==> DccFx(i) in ps
    ensures p == 2 ==> i < |n_func| && exists f: nat :: 16 <= f < n_func[i] && MfxFx(i, f) in ps
  {
    var k := Addressee(ps, false, (p, i));
    assert InRange(k, n_func);
  }

  /** One call sends the packets of the class it serves, with the Maerklin function
      packet at which the cycle of this class is. */
  lemma OneRefresh(s: Sched, y: Layout, c: Classes, n_func: seq<nat>, lastfunc: seq<nat>)
    requires GoodLayout(y) && SchedInv(s, y) && Fits(c, y) && |n_func| == |lastfunc| == y.n[2]
    ensures var fast, slow := OneStep(s.fast, y, c).1, OneStep(s.slow, y, Negated(c)).1;
            RunPackets(s, y, [c], n_func, lastfunc).0
            == (if !s.lastFast && fast.Some? then Transmitted(fast, s.fast.fx, n_func, lastfunc).0
                else Transmitted(slow, s.slow.fx, n_func, lastfunc).0)
  {
    hide OneStep;
    var a := Step(s, y, c).1;
    var fx := if Step(s, y, c).0.lastFast then s.fast.fx else s.slow.fx;
    KeepsLength(if a == [] then None else Some(a[0]), fx, n_func, lastfunc);
    hide Transmitted;
  }
}
