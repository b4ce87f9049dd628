/** The refresh packet pools of the three protocols: fixed arrays indexed by
    address, and the list of known addresses in order of first use. */
module PacketPool {
  import opened Options

  const MAX_MFX_ADDRESS := 512

  predicate Distinct(s: seq<int>) {
    forall i, j :: 0 <= i < j < |s| ==> s[i] != s[j]
  }

  predicate InRange(s: seq<int>, max: nat) {
    forall i :: 0 <= i < |s| ==> 1 <= s[i] <= max
  }

  /** The known addresses after an update for address a. */
  function Register(known: seq<int>, a: int): seq<int> {
    if a in known then known else known + [a]
  }

  function RegisterAll(known: seq<int>, adrs: seq<int>): seq<int>
    decreases |adrs|
  {
    if adrs == [] then known else RegisterAll(Register(known, adrs[0]), adrs[1..])
  }

  /** Distinct addresses from 1 to max are at most max many. */
  lemma {:induction false} Pigeonhole(s: seq<int>, max: nat)
    requires Distinct(s) && InRange(s, max)
    ensures |s| <= max
    decreases max
  {
    if s == [] {
    } else if max in s {
      var i :| 0 <= i < |s| && s[i] == max;
      var t := s[..i] + s[i + 1..];
      Pigeonhole(t, max - 1);
    } else {
      assert 1 <= s[0] <= max;
      Pigeonhole(s, max - 1);
    }
  }

  lemma Registered(known: seq<int>, a: int, max: nat)
    requires Distinct(known) && InRange(known, max) && 1 <= a <= max
    ensures var r := Register(known, a); Distinct(r) && InRange(r, max) && |r| <= max
    ensures forall b :: b in Register(known, a) <==> b == a || b in known
  {
    Pigeonhole(Register(known, a), max);
  }

  /** Over any sequence of updates with addresses in range the known addresses stay
      distinct, are exactly the ones used, in order of first use, and never more
      than the address range, so every write index is in bounds. */
  lemma {:induction false} PoolOverTime(known: seq<int>, adrs: seq<int>, max: nat)
    requires Distinct(known) && InRange(known, max) && InRange(adrs, max)
    ensures var r := RegisterAll(known, adrs);
            && Distinct(r) && InRange(r, max) && |r| <= max && known <= r
            && forall a :: a in r <==> a in known || a in adrs
    decreases |adrs|
  {
    if adrs == [] {
      Pigeonhole(known, max);
    } else {
      var next := Register(known, adrs[0]);
      assert InRange(next, max) by { assert 1 <= adrs[0] <= max; }
      PoolOverTime(next, adrs[1..], max);
      assert forall a :: a in adrs <==> a == adrs[0] || a in adrs[1..];
    }
  }

  /** The entries that an update for address a writes: its packet and, for a new
      address, the next place of the list. */
  function Writes(known: seq<int>, a: int): set<int> {
    if a in known then {a} else {a, |known|}
  }

  /** Every write of an update is inside the arrays of max + 1 entries if and only if
      the address is one of the pool's. */
  lemma WritesInside(known: seq<int>, a: int, max: nat)
    requires Distinct(known) && InRange(known, max) && a >= 1
    ensures (forall w :: w in Writes(known, a) ==> 0 <= w <= max) <==> a <= max
  {
    Pigeonhole(known, max);
    assert a in Writes(known, a);
  }

  /** Addresses below this one have an entry in the mfx directory. */
  const MAXMFXGL := 16380

  /** An mfx locomotive the directory accepts and the pool has no room for. */
  lemma MfxOutside()
    ensures 1 <= 513 < MAXMFXGL && !(forall w :: w in Writes([], 513) ==> 0 <= w <= MAX_MFX_ADDRESS)
  {
    WritesInside([], 513, MAX_MFX_ADDRESS);
  }

  class Pool<P> {
    const max: nat
    const known: array<int>
    const packets: array<Option<P>>
    var count: nat

    /** Known addresses are distinct and in range and have a packet; behind the
        count the list is zero; no other address has a packet. */
    ghost predicate Valid()
      reads this, known, packets
    {
      && known.Length == packets.Length == max + 1 && count <= max
      && Distinct(known[..count]) && InRange(known[..count], max)
      && (forall k :: count <= k <= max ==> known[k] == 0)
      && (forall a :: 0 <= a <= max ==> (packets[a].Some? <==> a in known[..count]))
    }

    ghost function Known(): seq<int>
      requires Valid()
      reads this, known, packets
    {
      known[..count]
    }

    constructor (maxAddress: nat)
      ensures Valid() && fresh(known) && fresh(packets) && max == maxAddress && Known() == []
    {
      max := maxAddress;
      known := new int[maxAddress + 1](_ => 0);
      packets := new Option<P>[maxAddress + 1](_ => None);
      count := 0;
    }

    /** The search loops differ in their bound (i < count, or i <= count in the DCC
        and mfx pools, which looks at one zero entry more); the answer does not. */
    method IsKnown(adr: int, bound: nat) returns (found: bool)
      requires Valid() && adr > 0 && count <= bound <= count + 1
      ensures found <==> adr in Known()
    {
      found := false;
      var i := 0;
      while i < bound && !found
        invariant 0 <= i <= bound
        invariant found <==> exists k :: 0 <= k < i && known[k] == adr
      {
        if known[i] == adr {
          found := true;
        }
        i := i + 1;
      }
      assert adr in known[..count] <==> exists k :: 0 <= k < count && known[k] == adr;
    }

    /** update_*PacketPool; inclusive tells the loop bound. */
    method Update(adr: int, packet: P, inclusive: bool)
      requires Valid() && 1 <= adr <= max
      modifies this, known, packets
      ensures Valid() && Known() == Register(old(Known()), adr)
      ensures packets[..] == old(packets[..])[adr := Some(packet)]
    {
      var found := IsKnown(adr, if inclusive then count + 1 else count);
      ghost var r := Register(Known(), adr);
      Registered(Known(), adr, max);
      hide Distinct, InRange;
      packets[adr] := Some(packet);
      if !found {
        known[count] := adr;
        count := count + 1;
        assert known[..count] == r;
      }
    }
  }
}
