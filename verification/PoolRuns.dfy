/** Whole runs of a backend host: what every reachable state of src/gw_backend.c keeps, and when a
    host without a process stays without one for good. */
module PoolRuns {
  import opened Pool

  /** What can happen to a host: the trigger of every second, in the server or in a worker, the exit
      of a child, a request while nothing is up, the start, binding, connect error and end of a
      request, and the restart of dead processes when a request fails. */
  datatype Event =
    | Tick(now: int, exited: map<nat, bool>, starts: map<nat, Start>, fresh_: nat, hasAddress: bool, s: Start)
    | Exit(pid: int, now: int, s: Start)
    | Demanded(now: int, fresh_: nat, hasAddress: bool, s: Start)
    | Assigned(c: nat)
    | Bound(c: nat)
    | Refused(c: nat, pid: int, now: int)
    | Closed(c: nat)
    | Restarted(now: int, exited: map<nat, bool>, starts: map<nat, Start>)
    | Enabled(now: int)

  predicate Pids(starts: map<nat, Start>) {
    forall q :: q in starts && starts[q].Forked? ==> starts[q].pid > 0
  }

  /** Addresses of new processes are new, children have numbers above 0, and requests are those of
      the host. */
  predicate Possible(h: Host, e: Event)
    reads h`heap, h`contexts
  {
    match e
    case Tick(_, _, starts, fresh_, _, s) => Pids(starts) && fresh_ != 0 && fresh_ !in h.heap && (s.Forked? ==> s.pid > 0)
    case Exit(_, _, s) => s.Forked? ==> s.pid > 0
    case Demanded(_, fresh_, _, s) => fresh_ != 0 && fresh_ !in h.heap && (s.Forked? ==> s.pid > 0)
    case Assigned(c) => c !in h.contexts
    case Bound(c) => c in h.contexts
    case Refused(c, _, _) => c in h.contexts && h.contexts[c] != 0
    case Closed(c) => c in h.contexts
    case Restarted(_, _, starts) => Pids(starts)
    case Enabled(_) => true
  }

  /** The trigger may start a process, though there is none. */
  predicate TriggerOpen(h: Host)
    reads h`numProcs
  {
    h.cfg.local && h.cfg.minProcs != h.cfg.maxProcs && 0 < h.numProcs < h.cfg.maxProcs
  }

  /** A request may start a process. */
  predicate DemandOpen(h: Host, workers: nat)
    reads h`numProcs
  {
    workers == 0 && h.cfg.local && h.cfg.minProcs == 0 && h.numProcs == 0
  }

  /** No process, and no way left to start one. */
  ghost predicate Lost(h: Host, workers: nat)
    reads h
  {
    h.live == [] && !TriggerOpen(h) && !DemandOpen(h, workers)
  }

  method Happen(h: Host, workers: nat, e: Event)
    requires h.Valid() && Possible(h, e)
    modifies h
    ensures h.Valid() && (old(Lost(h, workers)) ==> Lost(h, workers))
  {
    hide Good, Swept, AllBusy, SpawnOk, KillOk, AfterTurn, AfterWait, AfterExit;
    match e {
      case Tick(now, exited, starts, fresh_, hasAddress, s) =>
        ghost var before := h.live;
        ghost var reaped, mid, grown, shrunk, spawned, p, i, j;
        var killed;
        reaped, mid, grown, shrunk, spawned, p, i, killed, j := h.Trigger(now, exited, starts, fresh_, hasAddress, s);
        NothingKilled(grown, shrunk, now - h.cfg.idleTimeout, killed, j);
      case Exit(pid, now, s) =>
        var handled, p := h.ChildExited(pid, now, s);
      case Demanded(now, fresh_, hasAddress, s) =>
        var tried, r, p, i := h.Demand(workers, now, fresh_, hasAddress, s);
      case Assigned(c) => h.Assign(c);
      case Bound(c) => var ok := h.InitRequest(c);
      case Refused(c, pid, now) =>
        BoundHasLoad(h.Now(), c);
        BoundIsLive(h.Now(), h.contexts[c]);
        h.ConnectError(h.contexts[c], pid, now);
      case Closed(c) => h.Close(c);
      case Restarted(now, exited, starts) => h.RestartDead(now, exited, starts);
      case Enabled(now) => h.EnableAll(now);
    }
  }

  lemma NothingKilled(v: View, w: View, since: int, killed: bool, j: nat)
    requires exists fewer :: KillOk(v, w, since, fewer, killed, j)
    ensures v.live == [] ==> !killed && w.live == []
  {
  }

  lemma BoundIsLive(v: View, p: nat)
    requires Good(v, {}) && p in v.live
    ensures p !in v.idle
  {
    PartitionOf(v, {});
  }

  /** Every run keeps the invariant of the host; and a host that is lost is lost after any run. */
  method Play(h: Host, workers: nat, events: seq<Event>)
    requires h.Valid()
    modifies h
    ensures h.Valid() && (old(Lost(h, workers)) ==> Lost(h, workers))
  {
    hide Good;
    for n := 0 to |events|
      invariant h.Valid() && (old(Lost(h, workers)) ==> Lost(h, workers))
    {
      if Possible(h, events[n]) { Happen(h, workers, events[n]); }
    }
  }

  /** A host without a process that is not lost gets one by a single event, once no unused process
      is disabled any more: the trigger of a second, or a request. */
  method Revive(h: Host, workers: nat, now: int, fresh_: nat)
    requires h.Valid() && h.live == [] && fresh_ != 0 && fresh_ !in h.heap
    requires forall q :: q in h.idle && q in h.heap ==> h.heap[q].disabledUntil < now
    modifies h
    ensures h.Valid() && (h.live != [] <==> !old(Lost(h, workers)))
  {
    hide Good;
    if DemandOpen(h, workers) {
      var tried, r, p, i := h.Demand(workers, now, fresh_, true, AlreadyUp);
    } else {
      ghost var reaped, mid, grown, shrunk, spawned, p, i, j;
      var killed;
      reaped, mid, grown, shrunk, spawned, p, i, killed, j := h.Trigger(now, map[], map[], fresh_, true, AlreadyUp);
    }
  }

  /** One failed start is enough where max_procs is 1: whatever happens later, the host has no
      process. */
  method OneFailure(cfg: Config, now: int, p: nat, s: Start, events: seq<Event>) returns (h: Host)
    requires cfg.local && cfg.minProcs == 0 && cfg.maxProcs == 1 && p != 0 && !Starts(s) && (s.Forked? ==> s.pid > 0)
    ensures fresh(h) && h.Valid() && Lost(h, 0) && h.numProcs == 1
  {
    hide Good;
    h := new Host.Local(cfg, 0);
    var tried, r, q, i := h.Demand(0, now, p, true, s);
    Play(h, 0, events);
  }

  /** A listed process that can be started again at once, and is. */
  predicate Revivable(h: Host, q: nat, now: int, exited: map<nat, bool>, starts: map<nat, Start>)
    reads h`heap
  {
    && q in h.heap && h.heap[q].state.Died? && h.heap[q].load == 0 && h.heap[q].disabledUntil < now
    && !(h.heap[q].isLocal && h.heap[q].pid > 0 && Exits(exited, q)) && Starts(StartOf(starts, q))
  }

  /** A host all of whose processes are dead serves again after one trigger, if they can be started: each
      of them runs, and a request is given one. */
  method ServesAgain(h: Host, now: int, exited: map<nat, bool>, starts: map<nat, Start>, fresh_: nat, hasAddress: bool, s: Start, c: nat)
    requires h.Valid() && h.cfg.local && h.live != [] && h.cfg.idleTimeout >= 0
    requires forall q :: q in h.live ==> Revivable(h, q, now, exited, starts)
    requires Pids(starts) && fresh_ != 0 && fresh_ !in h.heap && (s.Forked? ==> s.pid > 0) && c !in h.contexts
    modifies h
    ensures h.Valid() && h.live == old(h.live)
    ensures forall q :: q in h.live ==> q in h.heap && h.heap[q].state.Running?
    ensures c in h.contexts && h.contexts[c] in h.live
  {
    hide Good, Swept, SpawnOk, AfterTurn, AfterWait, AllBusy, KillOk, AllReaped, AllTurned, StayedAs;
    ghost var reaped, mid, grown, shrunk, spawned, p, i, j;
    var killed;
    ghost var was, procs := h.heap, h.numProcs;
    LiveInHeap(h.Now());
    reaped, mid, grown, shrunk, spawned, p, i, killed, j := h.Trigger(now, exited, starts, fresh_, hasAddress, s);
    AllRevived(was, reaped, mid.heap, mid.live, now, exited, starts);
    NotDue(h, mid);
    NoneIdles(grown, shrunk, now, h.cfg.idleTimeout, h.cfg.local && h.cfg.minProcs != h.cfg.maxProcs && procs > h.cfg.minProcs, killed, j);
    assert h.live == mid.live;
    SameStates(mid.heap, h.heap, h.live);
    h.Assign(c);
    assert h.live[0] in h.live;
    var ok := h.InitRequest(c);
  }

  lemma AllRevived(was: Heap, reaped: Heap, mid: Heap, l: seq<nat>, now: int, exited: map<nat, bool>, starts: map<nat, Start>)
    requires AllReaped(was, reaped, l, now, exited) && AllTurned(reaped, mid, l, true, now, exited, starts)
    requires forall q :: q in l ==>
      && q in was && was[q].state.Died? && was[q].load == 0 && was[q].disabledUntil < now
      && !(was[q].isLocal && was[q].pid > 0 && Exits(exited, q)) && Starts(StartOf(starts, q))
    ensures forall q :: q in l ==> q in mid && mid[q].state.Running? && mid[q].load == 0 && (mid[q].pid <= 0 || mid[q].lastUsed == now)
  {
    forall q | q in l
      ensures q in mid && mid[q].state.Running? && mid[q].load == 0 && (mid[q].pid <= 0 || mid[q].lastUsed == now)
    {
      assert reaped[q] == was[q];
      assert TurnedTo(true, was[q], mid[q], now, Exits(exited, q), StartOf(starts, q));
    }
  }

  lemma NotDue(h: Host, v: View)
    requires v.live != [] && v.live[0] in v.heap && v.heap[v.live[0]].load == 0
    ensures !AllBusy(v.heap, v.live, h.cfg.maxLoadPerProc)
  {
  }

  lemma NoneIdles(v: View, w: View, now: int, timeout: int, fewer: bool, killed: bool, j: nat)
    requires timeout >= 0 && forall q :: q in v.live ==> q in v.heap && (v.heap[q].pid <= 0 || v.heap[q].lastUsed == now)
    requires KillOk(v, w, now - timeout, fewer, killed, j)
    ensures !killed && w.live == v.live
  {
    assert j < |v.live| ==> v.live[j] in v.live;
  }

  lemma LiveInHeap(v: View)
    requires Good(v, {})
    ensures forall q :: q in v.live ==> q in v.heap
  {
    PartitionOf(v, {});
  }

  lemma SameStates(before: Heap, after: Heap, l: seq<nat>)
    requires StayedAs(before, after, l, l) && forall q :: q in l ==> q in before && before[q].state.Running?
    ensures forall q :: q in l ==> q in after && after[q].state.Running?
  {
    forall q | q in l
      ensures q in after && after[q].state.Running?
    {
      assert Data(after[q]) == Data(before[q]);
      assert Data(after[q]).state == after[q].state && Data(before[q]).state == before[q].state;
    }
  }
}
