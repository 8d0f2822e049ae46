/** Choosing a backend host (gw_host_get in src/gw_backend.c): round-robin, least connection, and
    the two that elect a host by a hash. */
module Balancer {

  const ULONG_MAX: nat := 0xFFFF_FFFF_FFFF_FFFF
  const INT_MAX := 0x7FFF_FFFF
  const UINT32: nat := 0x1_0000_0000

  /** What the choice looks at: processes running, requests, the checksum of the name, and the port. */
  datatype Host = Host(activeProcs: nat, load: int, crc: nat, port: nat)

  /** The checksums of a request's path, authority and client address. */
  datatype Request = Request(path: nat, authority: nat, address: nat)

  datatype Balance = LeastConnection | RoundRobin | Hash | Sticky

  /** The score of a host, in 32-bit unsigned arithmetic where it is a hash. */
  function Score(b: Balance, r: Request, h: Host): int
    requires !b.RoundRobin?
  {
    match b
    case Hash => (r.path + h.crc + r.authority) % UINT32
    case Sticky => (r.address + h.crc + h.port) % UINT32
    case LeastConnection => -h.load
  }

  predicate Eligible(b: Balance, h: Host) {
    h.activeProcs > 0 && (b.LeastConnection? ==> h.load < INT_MAX)
  }

  /** k is the first of the eligible hosts with the highest score. */
  ghost predicate Elected(hosts: seq<Host>, b: Balance, r: Request, k: int)
    requires !b.RoundRobin?
  {
    && 0 <= k < |hosts| && Eligible(b, hosts[k])
    && (forall i :: 0 <= i < |hosts| && Eligible(b, hosts[i]) ==> Score(b, r, hosts[i]) <= Score(b, r, hosts[k]))
    && (forall i :: 0 <= i < k && Eligible(b, hosts[i]) ==> Score(b, r, hosts[i]) < Score(b, r, hosts[k]))
  }

  /** Elected, or -1 if there is nobody to elect. */
  ghost predicate Outcome(hosts: seq<Host>, b: Balance, r: Request, k: int)
    requires !b.RoundRobin?
  {
    if k == -1 then forall i :: 0 <= i < |hosts| ==> !Eligible(b, hosts[i]) else Elected(hosts, b, r, k)
  }

  /** By the path: the first of the active hosts whose checksum, with those of the path and the authority,
      is the highest as a 32-bit sum. */
  lemma ElectedByHash(hosts: seq<Host>, r: Request, k: int)
    requires Elected(hosts, Hash, r, k)
    ensures 0 <= k < |hosts| && hosts[k].activeProcs > 0
    ensures forall i :: 0 <= i < |hosts| && hosts[i].activeProcs > 0 ==>
      var mine, best := (hosts[i].crc + r.path + r.authority) % 0x1_0000_0000, (hosts[k].crc + r.path + r.authority) % 0x1_0000_0000;
      mine <= best && (i < k ==> mine < best)
  {
    assert forall h :: Score(Hash, r, h) == (h.crc + r.path + r.authority) % 0x1_0000_0000;
  }

  /** By the client: the same with the checksum of its address, and the port of the host. */
  lemma ElectedByClient(hosts: seq<Host>, r: Request, k: int)
    requires Elected(hosts, Sticky, r, k)
    ensures 0 <= k < |hosts| && hosts[k].activeProcs > 0
    ensures forall i :: 0 <= i < |hosts| && hosts[i].activeProcs > 0 ==>
      var mine, best := (hosts[i].crc + r.address + hosts[i].port) % 0x1_0000_0000, (hosts[k].crc + r.address + hosts[k].port) % 0x1_0000_0000;
      mine <= best && (i < k ==> mine < best)
  {
    assert forall h :: Score(Sticky, r, h) == (h.crc + r.address + h.port) % 0x1_0000_0000;
  }

  /** By the load: the first of the active hosts with the fewest requests, which are fewer than INT_MAX. */
  lemma ElectedByLoad(hosts: seq<Host>, r: Request, k: int)
    requires Elected(hosts, LeastConnection, r, k)
    ensures 0 <= k < |hosts| && hosts[k].activeProcs > 0 && hosts[k].load < 0x7FFF_FFFF
    ensures forall i :: 0 <= i < |hosts| && hosts[i].activeProcs > 0 ==> hosts[k].load <= hosts[i].load && (i < k ==> hosts[k].load < hosts[i].load)
  {
    assert forall h :: Score(LeastConnection, r, h) == -h.load;
  }

  /** Taking out a host that is not chosen does not change the choice. */
  lemma OthersLeaving(hosts: seq<Host>, b: Balance, r: Request, x: nat, k: int)
    requires !b.RoundRobin? && x < |hosts| && Outcome(hosts, b, r, k) && x != k
    ensures Outcome(hosts[x := hosts[x].(activeProcs := 0)], b, r, k)
  {
    var later := hosts[x := hosts[x].(activeProcs := 0)];
    assert forall i :: 0 <= i < |hosts| && i != x ==> later[i] == hosts[i];
  }

  /** A host that comes back takes requests only for itself. */
  lemma OthersJoining(hosts: seq<Host>, b: Balance, r: Request, x: nat, n: nat, k: int, k': int)
    requires !b.RoundRobin? && x < |hosts| && hosts[x].activeProcs == 0
    requires Outcome(hosts, b, r, k) && Outcome(hosts[x := hosts[x].(activeProcs := n)], b, r, k')
    ensures k' == k || k' == x
  {
    var later := hosts[x := hosts[x].(activeProcs := n)];
    assert forall i :: 0 <= i < |hosts| && i != x ==> later[i] == hosts[i];
  }

  // Round-robin.

  /** The hosts in use from number i on. */
  function ActiveFrom(hosts: seq<Host>, i: nat): seq<int>
    decreases |hosts| - i
  {
    if i >= |hosts| then []
    else (if hosts[i].activeProcs > 0 then [i] else []) + ActiveFrom(hosts, i + 1)
  }

  /** The first active host after the last one, cyclically. */
  function Next(hosts: seq<Host>, last: int): int
    requires -1 <= last
  {
    if ActiveFrom(hosts, last + 1) != [] then ActiveFrom(hosts, last + 1)[0]
    else if ActiveFrom(hosts, 0) != [] then ActiveFrom(hosts, 0)[0]
    else -1
  }

  predicate Increasing(a: seq<int>) {
    forall p, q :: 0 <= p < q < |a| ==> a[p] < a[q]
  }

  lemma {:induction false} ActiveFromSorted(hosts: seq<Host>, i: nat)
    ensures forall x :: x in ActiveFrom(hosts, i) <==> i <= x < |hosts| && hosts[x].activeProcs > 0
    ensures Increasing(ActiveFrom(hosts, i))
    decreases |hosts| - i
  {
    if i < |hosts| {
      ActiveFromSorted(hosts, i + 1);
      var later := ActiveFrom(hosts, i + 1);
      var a := ActiveFrom(hosts, i);
      if hosts[i].activeProcs > 0 {
        assert a == [i] + later;
        forall q | 1 <= q < |a|
          ensures a[q] > i
        {
          assert a[q] in later;
        }
      } else {
        assert a == later;
      }
    }
  }

  lemma {:induction false} AfterFirst(hosts: seq<Host>, i: nat)
    requires ActiveFrom(hosts, i) != []
    ensures var f := ActiveFrom(hosts, i)[0]; f >= i && ActiveFrom(hosts, f + 1) == ActiveFrom(hosts, i)[1..]
    decreases |hosts| - i
  {
    if hosts[i].activeProcs == 0 {
      AfterFirst(hosts, i + 1);
    }
  }

  lemma ActiveStep(hosts: seq<Host>, i: nat)
    requires i < |hosts|
    ensures ActiveFrom(hosts, i) == (if hosts[i].activeProcs > 0 then [i] else []) + ActiveFrom(hosts, i + 1)
  {
  }

  lemma NoneFrom(hosts: seq<Host>, i: nat, j: nat)
    requires i == j || |hosts| <= i <= j
    ensures ActiveFrom(hosts, i) == [] + ActiveFrom(hosts, j)
  {
  }

  lemma {:induction false} ActiveSuffix(hosts: seq<Host>, i: nat, j: nat) returns (before: seq<int>)
    requires i <= j
    ensures ActiveFrom(hosts, i) == before + ActiveFrom(hosts, j)
    decreases j - i
  {
    hide ActiveFrom;
    if i == j || i >= |hosts| {
      before := [];
      NoneFrom(hosts, i, j);
    } else {
      ActiveStep(hosts, i);
      var rest := ActiveSuffix(hosts, i + 1, j);
      var first := if hosts[i].activeProcs > 0 then [i] else [];
      before := first + rest;
      assert first + (rest + ActiveFrom(hosts, j)) == before + ActiveFrom(hosts, j);
    }
  }

  /** The hosts of n calls in a row. */
  function Turns(hosts: seq<Host>, last: int, n: nat): seq<int>
    requires -1 <= last
    decreases n
  {
    if n == 0 || ActiveFrom(hosts, 0) == [] then []
    else
      ActiveNext(hosts, last);
      [Next(hosts, last)] + Turns(hosts, Next(hosts, last), n - 1)
  }

  lemma ActiveNext(hosts: seq<Host>, last: int)
    requires -1 <= last && ActiveFrom(hosts, 0) != []
    ensures Next(hosts, last) >= 0
  {
    if ActiveFrom(hosts, last + 1) != [] { AfterFirst(hosts, last + 1); } else { AfterFirst(hosts, 0); }
  }

  lemma {:induction false} TurnsAre(hosts: seq<Host>, last: int, n: nat)
    requires -1 <= last && n <= |ActiveFrom(hosts, last + 1)| + |ActiveFrom(hosts, 0)| && ActiveFrom(hosts, 0) != []
    ensures Turns(hosts, last, n) == (ActiveFrom(hosts, last + 1) + ActiveFrom(hosts, 0))[..n]
    decreases n
  {
    hide ActiveFrom;
    var rest, all := ActiveFrom(hosts, last + 1), ActiveFrom(hosts, 0);
    if n > 0 {
      var next := Next(hosts, last);
      ActiveNext(hosts, last);
      if rest != [] {
        AfterFirst(hosts, last + 1);
        TurnsAre(hosts, next, n - 1);
        ConsTake(rest, all, n);
      } else {
        AfterFirst(hosts, 0);
        TurnsAre(hosts, next, n - 1);
        ConsTake(all, all, n);
        assert (rest + all)[..n] == (all + all)[..n];
      }
    }
  }

  lemma ConsTake(a: seq<int>, b: seq<int>, n: nat)
    requires a != [] && 0 < n <= |a| + |b|
    ensures (a + b)[..n] == [a[0]] + (a[1..] + b)[..n - 1]
  {
  }

  /** In turn: the next active host after the last one, or else the first of all; none if none is active. */
  lemma NextIs(hosts: seq<Host>, last: int)
    requires -1 <= last < |hosts|
    ensures var k := Next(hosts, last);
      if k == -1 then forall i :: 0 <= i < |hosts| ==> hosts[i].activeProcs == 0
      else
        && 0 <= k < |hosts| && hosts[k].activeProcs > 0
        && (last < k ==> forall i :: last < i < k ==> hosts[i].activeProcs == 0)
        && (k <= last ==> forall i :: 0 <= i < k || last < i < |hosts| ==> hosts[i].activeProcs == 0)
  {
    hide ActiveFrom;
    FirstFrom(hosts, last + 1);
    FirstFrom(hosts, 0);
  }

  lemma FirstFrom(hosts: seq<Host>, i: nat)
    ensures var a := ActiveFrom(hosts, i);
      if a == [] then forall j :: i <= j < |hosts| ==> hosts[j].activeProcs == 0
      else i <= a[0] < |hosts| && hosts[a[0]].activeProcs > 0 && forall j :: i <= j < a[0] ==> hosts[j].activeProcs == 0
  {
    hide ActiveFrom;
    ActiveFromSorted(hosts, i);
    var a := ActiveFrom(hosts, i);
    if a != [] {
      assert a[0] in a;
      assert forall x :: x in a ==> a[0] <= x;
    }
  }

  /** With a fixed set of active hosts, as many calls as there are visit each of them once. */
  lemma EachOnce(hosts: seq<Host>, last: int)
    requires -1 <= last && ActiveFrom(hosts, 0) != []
    ensures var all := ActiveFrom(hosts, 0); multiset(Turns(hosts, last, |all|)) == multiset(all)
    ensures forall x: int ::
      (multiset(Turns(hosts, last, |ActiveFrom(hosts, 0)|))[x] == if 0 <= x < |hosts| && hosts[x].activeProcs > 0 then 1 else 0)
  {
    var all, rest := ActiveFrom(hosts, 0), ActiveFrom(hosts, last + 1);
    TurnsAre(hosts, last, |all|);
    var before := ActiveSuffix(hosts, 0, last + 1);
    assert (rest + all)[..|all|] == rest + all[..|before|];
    assert all[..|before|] == before;
    assert multiset(rest + before) == multiset(before + rest);
    ActiveFromSorted(hosts, 0);
    Once(all);
  }

  lemma {:induction false} Once(a: seq<int>)
    requires Increasing(a)
    ensures forall x :: multiset(a)[x] == if x in a then 1 else 0
  {
    if a != [] {
      Once(a[1..]);
      assert a == [a[0]] + a[1..];
      assert a[0] !in a[1..];
    }
  }

  /** The choice among the hosts that are up, -1 if there is none. */
  ghost predicate Chosen(hosts: seq<Host>, b: Balance, r: Request, last: int, k: int)
    requires -1 <= last
  {
    if |hosts| <= 1 then k == (if |hosts| == 1 && hosts[0].activeProcs > 0 then 0 else -1)
    else if b.RoundRobin? then k == Next(hosts, last)
    else Outcome(hosts, b, r, k)
  }

  class Extension {
    var hosts: seq<Host>
    var lastUsedNdx: int

    ghost predicate Valid()
      reads this
    {
      -1 <= lastUsedNdx < |hosts| || lastUsedNdx == -1
    }

    constructor (hosts: seq<Host>)
      ensures Valid() && this.hosts == hosts && lastUsedNdx == -1
    {
      this.hosts, lastUsedNdx := hosts, -1;
    }

    /** The choice of gw_host_get. */
    method GetHost(b: Balance, r: Request) returns (ndx: int)
      requires Valid()
      modifies `lastUsedNdx
      ensures Valid() && (b.RoundRobin? && |hosts| > 1 ==> lastUsedNdx == ndx)
      ensures !b.RoundRobin? || |hosts| <= 1 ==> lastUsedNdx == old(lastUsedNdx)
      ensures Chosen(hosts, b, r, old(lastUsedNdx), ndx)
    {
      if |hosts| <= 1 {
        return if |hosts| == 1 && hosts[0].activeProcs > 0 then 0 else -1;
      }
      match b {
        case Hash => ndx := ElectByHash(b, r);
        case Sticky => ndx := ElectByHash(b, r);
        case LeastConnection => ndx := LeastLoaded(r);
        case RoundRobin => ndx := TakeTurn();
      }
    }

    method TakeTurn() returns (ndx: int)
      requires Valid() && |hosts| > 1
      modifies `lastUsedNdx
      ensures ndx == Next(hosts, old(lastUsedNdx)) == lastUsedNdx && -1 <= ndx < |hosts|
    {
      var k := lastUsedNdx;
      ndx := k + 1;
      if ndx < 0 { ndx := 0; }
      while ndx < |hosts| && hosts[ndx].activeProcs == 0
        invariant 0 <= ndx <= |hosts| && ActiveFrom(hosts, k + 1) == ActiveFrom(hosts, ndx)
      {
        ndx := ndx + 1;
      }
      if ndx >= |hosts| {
        ndx := 0;
        while ndx <= k && hosts[ndx].activeProcs == 0
          invariant 0 <= ndx <= k + 1 && ActiveFrom(hosts, 0) == ActiveFrom(hosts, ndx)
        {
          ndx := ndx + 1;
        }
        if ndx > k { ndx := -1; }
      }
      lastUsedNdx := ndx;
    }

    method ElectByHash(b: Balance, r: Request) returns (ndx: int)
      requires b.Hash? || b.Sticky?
      ensures Outcome(hosts, b, r, ndx)
    {
      ndx := -1;
      var lastMax := ULONG_MAX;
      for k := 0 to |hosts|
        invariant ndx == -1 ==> lastMax == ULONG_MAX && forall i :: 0 <= i < k ==> !Eligible(b, hosts[i])
        invariant ndx != -1 ==> Elected(hosts[..k], b, r, ndx) && lastMax == Score(b, r, hosts[ndx]) < UINT32
      {
        if hosts[k].activeProcs == 0 { continue; }
        var curMax := Score(b, r, hosts[k]);
        if lastMax < curMax || lastMax == ULONG_MAX {
          lastMax := curMax;
          ndx := k;
        }
      }
      assert hosts[..|hosts|] == hosts;
    }

    method LeastLoaded(r: Request) returns (ndx: int)
      ensures Outcome(hosts, LeastConnection, r, ndx)
    {
      ndx := -1;
      var maxUsage := INT_MAX;
      for k := 0 to |hosts|
        invariant ndx == -1 ==> maxUsage == INT_MAX && forall i :: 0 <= i < k ==> !Eligible(LeastConnection, hosts[i])
        invariant ndx != -1 ==> Elected(hosts[..k], LeastConnection, r, ndx) && maxUsage == hosts[ndx].load
      {
        if hosts[k].activeProcs == 0 { continue; }
        if hosts[k].load < maxUsage {
          maxUsage := hosts[k].load;
          ndx := k;
        }
      }
      assert hosts[..|hosts|] == hosts;
    }
  }
}
