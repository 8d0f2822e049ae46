/** The whole of gw_host_get (src/gw_backend.c): the choice among the hosts that are up and, if none
    is, a process started on demand. */
module Dispatch {
  import opened Pool
  import PoolRuns
  import Balancer

  /** A process was started on demand: num_procs tells if it was tried to the end. */
  ghost predicate Spawned1(v: View, w: View, procs: int, now: int, fresh_: nat, hasAddress: bool, s: Start) {
    exists r, p, i :: SpawnOk(v, w, now, fresh_, hasAddress, s, r, p, i) && procs == if r.Started? || r.Failed? then 1 else 0
  }

  /** What the hosts look like to the choice. */
  ghost predicate Mirrors(hosts: seq<Balancer.Host>, pools: seq<Host>)
    reads pools
  {
    && |hosts| == |pools|
    && forall k :: 0 <= k < |pools| ==> hosts[k].activeProcs == pools[k].active && hosts[k].load == pools[k].load
  }

  ghost predicate Ready(pools: seq<Host>, fresh_: seq<nat>, starts: seq<Start>)
    reads pools
  {
    && |fresh_| == |starts| == |pools|
    && (forall j, k :: 0 <= j < k < |pools| ==> pools[j] != pools[k])
    && (forall k :: 0 <= k < |pools| ==> pools[k].Valid() && fresh_[k] != 0 && fresh_[k] !in pools[k].heap)
    && (forall k :: 0 <= k < |pools| && starts[k].Forked? ==> starts[k].pid > 0)
  }

  twostate predicate Untouched(h: Host)
    reads h
  {
    h.Now() == old(h.Now()) && h.numProcs == old(h.numProcs) && h.Valid()
  }

  /** The host had no process and starts them on demand, and was treated as gw_proc_spawn says. */
  twostate predicate Tried(h: Host, now: int, fresh_: nat, hasAddress: bool, s: Start)
    reads h
  {
    old(PoolRuns.DemandOpen(h, 0)) && h.Valid() && Spawned1(old(h.Now()), h.Now(), h.numProcs, now, fresh_, hasAddress, s)
  }

  /** gw_host_get. `ndx` is the host that was chosen, or else the first that starts processes on
      demand, has none, and was given one; whether that one came up does not matter. Hosts that could
      not be given one are passed over; the others are left alone. */
  method GetHost(ext: Balancer.Extension, b: Balancer.Balance, r: Balancer.Request, pools: seq<Host>, workers: nat,
                 now: int, fresh_: seq<nat>, addresses: seq<bool>, starts: seq<Start>) returns (ndx: int, ghost chosen: int)
    requires ext.Valid() && Mirrors(ext.hosts, pools) && Ready(pools, fresh_, starts) && |addresses| == |pools|
    modifies ext`lastUsedNdx, pools
    ensures ext.Valid() && Balancer.Chosen(ext.hosts, b, r, old(ext.lastUsedNdx), chosen)
    ensures chosen != -1 || workers != 0 ==> ndx == chosen && forall k :: 0 <= k < |pools| ==> Untouched(pools[k])
    ensures chosen == -1 && workers == 0 ==> -1 <= ndx < |pools|
    ensures chosen == -1 && workers == 0 && ndx != -1 ==> Tried(pools[ndx], now, fresh_[ndx], addresses[ndx], starts[ndx]) && pools[ndx].numProcs == 1
    ensures chosen == -1 && workers == 0 ==> forall k :: 0 <= k < |pools| && k != ndx ==>
      if (ndx == -1 || k < ndx) && old(PoolRuns.DemandOpen(pools[k], 0))
      then Tried(pools[k], now, fresh_[k], addresses[k], starts[k]) && pools[k].numProcs == 0
      else Untouched(pools[k])
  {
    hide Good, SpawnOk, Balancer.Chosen, Spawned1;
    ndx := ext.GetHost(b, r);
    chosen := ndx;
    if ndx == -1 && workers == 0 {
      ndx := OnDemand(pools, now, fresh_, addresses, starts);
    }
  }

  /** The loop over the hosts when none is up. */
  method OnDemand(pools: seq<Host>, now: int, fresh_: seq<nat>, addresses: seq<bool>, starts: seq<Start>) returns (ndx: int)
    requires Ready(pools, fresh_, starts) && |addresses| == |pools|
    modifies pools
    ensures -1 <= ndx < |pools|
    ensures ndx != -1 ==> Tried(pools[ndx], now, fresh_[ndx], addresses[ndx], starts[ndx]) && pools[ndx].numProcs == 1
    ensures forall k :: 0 <= k < |pools| && k != ndx ==>
      if (ndx == -1 || k < ndx) && old(PoolRuns.DemandOpen(pools[k], 0))
      then Tried(pools[k], now, fresh_[k], addresses[k], starts[k]) && pools[k].numProcs == 0
      else Untouched(pools[k])
  {
    hide Good, SpawnOk, Spawned1, Host.Now, Host.Valid;
    for k := 0 to |pools|
      invariant forall j :: k <= j < |pools| ==> Untouched(pools[j]) && pools[j].heap == old(pools[j].heap)
      invariant forall j :: 0 <= j < k ==>
        if old(PoolRuns.DemandOpen(pools[j], 0))
        then Tried(pools[j], now, fresh_[j], addresses[j], starts[j]) && pools[j].numProcs == 0
        else Untouched(pools[j])
    {
      var host := pools[k];
      if host.cfg.minProcs == 0 && host.numProcs == 0 && host.cfg.local {
        var procs := Spawn1(host, now, fresh_[k], addresses[k], starts[k]);
        if procs != 0 { return k; }
      }
    }
    return -1;
  }

  method Spawn1(host: Host, now: int, fresh_: nat, hasAddress: bool, s: Start) returns (procs: int)
    requires host.Valid() && PoolRuns.DemandOpen(host, 0) && fresh_ != 0 && fresh_ !in host.heap && (s.Forked? ==> s.pid > 0)
    modifies host
    ensures host.Valid() && procs == host.numProcs && (procs == 0 || procs == 1)
    ensures Spawned1(old(host.Now()), host.Now(), procs, now, fresh_, hasAddress, s)
  {
    hide Good, SpawnOk;
    ghost var w, r, p, i;
    w, r, p, i := host.SpawnOne(now, fresh_, hasAddress, s);
    procs := host.numProcs;
  }
}
