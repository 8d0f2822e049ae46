/** The pool of backend processes of one host (src/gw_backend.c): two doubly linked lists, the
    counters over them, and the requests bound to processes. Processes lie in a table under their
    addresses; the links are addresses, 0 for none. */
module Pool {

  datatype State = Running | Overloaded | DiedWaitForPid | Died | Killed

  datatype Proc = Proc(id: nat, pid: int, load: nat, state: State, prev: nat, next: nat,
                       disabledUntil: int, isLocal: bool, lastUsed: int)

  type Heap = map<nat, Proc>

  // Linked lists.

  /** The i-th address of a list, 0 beside it. */
  function At(l: seq<nat>, i: int): nat {
    if 0 <= i < |l| then l[i] else 0
  }

  ghost predicate NoDups(l: seq<nat>) {
    forall i, j :: 0 <= i < j < |l| ==> l[i] != l[j]
  }

  /** The links from head on run through l, forwards and backwards. */
  ghost predicate Chain(heap: Heap, head: nat, l: seq<nat>) {
    && NoDups(l) && 0 !in l && head == At(l, 0)
    && forall i: nat :: i < |l| ==> Linked(heap, l, i)
  }

  predicate Linked(heap: Heap, l: seq<nat>, i: nat)
    requires i < |l|
  {
    l[i] in heap && heap[l[i]].next == At(l, i + 1) && heap[l[i]].prev == At(l, i - 1)
  }

  /** Changing what is not a link leaves lists alone. */
  lemma ChainTouch(heap: Heap, head: nat, l: seq<nat>, p: nat, r: Proc)
    requires Chain(heap, head, l) && p in heap && (p in l ==> r.next == heap[p].next && r.prev == heap[p].prev)
    ensures Chain(heap[p := r], head, l)
  {
    var h := heap[p := r];
    forall i: nat | i < |l|
      ensures Linked(h, l, i)
    {
      assert Linked(heap, l, i) && l[i] in l;
    }
  }

  /** p, whose back link is empty, becomes the first of a list. */
  function Pushed(heap: Heap, head: nat, p: nat): Heap
    requires p in heap && (head != 0 ==> head in heap)
  {
    var h := heap[p := heap[p].(next := head)];
    if head != 0 then h[head := h[head].(prev := p)] else h
  }

  lemma HeadIn(heap: Heap, head: nat, l: seq<nat>)
    requires Chain(heap, head, l)
    ensures head != 0 ==> l != [] && head == l[0] && head in heap
    ensures head == 0 ==> l == []
  {
    if l != [] { assert Linked(heap, l, 0) && l[0] in l; }
  }

  lemma PushedChain(heap: Heap, head: nat, l: seq<nat>, p: nat)
    requires Chain(heap, head, l) && p in heap && p != 0 && p !in l && heap[p].prev == 0
    requires head != 0 ==> head in heap
    ensures Chain(Pushed(heap, head, p), p, [p] + l)
  {
    var later := [p] + l;
    HeadIn(heap, head, l);
    forall i: nat | i < |later|
      ensures Linked(Pushed(heap, head, p), later, i)
    {
      if i > 0 { assert later[i] == l[i - 1] && Linked(heap, l, i - 1) && l[i - 1] in l; }
      if i > 1 { assert l[i - 1] != l[0]; }
    }
  }

  lemma PushedOther(heap: Heap, head: nat, l: seq<nat>, p: nat, other: nat, m: seq<nat>)
    requires Chain(heap, head, l) && Chain(heap, other, m) && p in heap && p !in m && (forall x :: x in l ==> x !in m)
    requires head != 0 ==> head in heap
    ensures Chain(Pushed(heap, head, p), other, m)
  {
    HeadIn(heap, head, l);
    if l != [] { assert l[0] in l; }
    forall i: nat | i < |m|
      ensures Linked(Pushed(heap, head, p), m, i)
    {
      assert Linked(heap, m, i) && m[i] in m;
    }
  }

  /** The neighbours of p are there. */
  predicate Closed(heap: Heap, p: nat) {
    p in heap && (heap[p].next != 0 ==> heap[p].next in heap) && (heap[p].prev != 0 ==> heap[p].prev in heap)
  }

  /** p is taken out of its list: its neighbours are linked to each other. */
  function Unlinked(heap: Heap, p: nat): Heap
    requires Closed(heap, p)
  {
    var next, prev := heap[p].next, heap[p].prev;
    var h := if next != 0 then heap[next := heap[next].(prev := prev)] else heap;
    if prev != 0 then h[prev := h[prev].(next := next)] else h
  }

  function Removed(l: seq<nat>, i: nat): seq<nat>
    requires i < |l|
  {
    l[..i] + l[i + 1..]
  }

  lemma Neighbours(heap: Heap, head: nat, l: seq<nat>, i: nat)
    requires Chain(heap, head, l) && i < |l|
    ensures l[i] in heap && heap[l[i]].next == At(l, i + 1) && heap[l[i]].prev == At(l, i - 1)
    ensures Closed(heap, l[i])
    ensures heap[l[i]].prev == 0 <==> i == 0
    ensures heap[l[i]].next == 0 <==> i == |l| - 1
    ensures head == l[i] <==> i == 0
  {
    assert Linked(heap, l, i);
    if i > 0 { assert Linked(heap, l, i - 1) && l[i - 1] in l; }
    if i + 1 < |l| { assert Linked(heap, l, i + 1) && l[i + 1] in l; }
  }

  lemma UnlinkedAt(heap: Heap, head: nat, l: seq<nat>, i: nat, k: nat)
    requires Chain(heap, head, l) && i < |l| && k < |l| && k != i
    requires Closed(heap, l[i])
    ensures var h := Unlinked(heap, l[i]);
      && l[k] in h
      && h[l[k]].next == (if k + 1 == i then At(l, i + 1) else At(l, k + 1))
      && h[l[k]].prev == (if k == i + 1 then At(l, i - 1) else At(l, k - 1))
  {
    Neighbours(heap, head, l, i);
    Neighbours(heap, head, l, k);
  }

  lemma UnlinkedChain(heap: Heap, head: nat, l: seq<nat>, i: nat)
    requires Chain(heap, head, l) && i < |l|
    requires Closed(heap, l[i])
    ensures Chain(Unlinked(heap, l[i]), if heap[l[i]].prev == 0 then heap[l[i]].next else head, Removed(l, i))
  {
    hide Unlinked;
    Neighbours(heap, head, l, i);
    var h, r := Unlinked(heap, l[i]), Removed(l, i);
    forall k: nat | k < |r|
      ensures Linked(h, r, k)
    {
      UnlinkedAt(heap, head, l, i, if k < i then k else k + 1);
    }
    assert forall k :: 0 <= k < |r| ==> r[k] in l;
  }

  lemma UnlinkedOther(heap: Heap, head: nat, l: seq<nat>, i: nat, other: nat, m: seq<nat>)
    requires Chain(heap, head, l) && i < |l| && Chain(heap, other, m) && forall x :: x in l ==> x !in m
    requires Closed(heap, l[i])
    ensures Chain(Unlinked(heap, l[i]), other, m)
  {
    Neighbours(heap, head, l, i);
    assert i > 0 ==> l[i - 1] in l;
    assert i + 1 < |l| ==> l[i + 1] in l;
    forall k: nat | k < |m|
      ensures Linked(Unlinked(heap, l[i]), m, k)
    {
      assert Linked(heap, m, k) && m[k] in m;
    }
  }

  // The state of a host.

  /** All of it, with the lists the links spell, and for each process how many requests were bound
      to it and then forgot it. */
  datatype View = View(heap: Heap, first: nat, unused: nat, active: int, maxId: int, load: int,
                       contexts: map<nat, nat>, live: seq<nat>, idle: seq<nat>, leaked: map<nat, nat>)

  /** The lists share nothing and hold every process but those in `pending`. */
  ghost predicate Partition(heap: Heap, live: seq<nat>, idle: seq<nat>, pending: set<nat>) {
    && (forall x :: x in live ==> x !in idle && x !in pending)
    && (forall x :: x in idle ==> x !in pending)
    && (forall x :: x in heap <==> x in live || x in idle || x in pending)
    && 0 !in heap
  }

  /** Numbers are distinct and below maxId. */
  ghost predicate Ids(heap: Heap, maxId: int) {
    && (forall p :: p in heap ==> heap[p].id < maxId)
    && (forall p, q :: p in heap && q in heap && heap[p].id == heap[q].id ==> p == q)
  }

  ghost function RunningIn(heap: Heap): set<nat> {
    set p | p in heap && heap[p].state.Running?
  }

  /** The request contexts bound to a process. */
  ghost function BoundTo(contexts: map<nat, nat>, p: nat): set<nat> {
    set c | c in contexts && contexts[c] == p
  }

  function Leak(leaked: map<nat, nat>, p: nat): nat {
    if p in leaked then leaked[p] else 0
  }

  function LoadOf(heap: Heap, p: nat): nat {
    if p in heap then heap[p].load else 0
  }

  /** A process's load counts the requests bound to it and those that forgot it. */
  ghost predicate LoadAt(heap: Heap, contexts: map<nat, nat>, leaked: map<nat, nat>, p: nat) {
    LoadOf(heap, p) == |BoundTo(contexts, p)| + Leak(leaked, p)
  }

  ghost predicate Loads(heap: Heap, contexts: map<nat, nat>, leaked: map<nat, nat>) {
    forall p: nat :: p != 0 ==> LoadAt(heap, contexts, leaked, p)
  }

  /** Processes in the unused list do not run and have no load. */
  ghost predicate Resting(heap: Heap, idle: seq<nat>) {
    forall p :: p in idle && p in heap ==> !heap[p].state.Running? && heap[p].load == 0
  }

  /** Both lists are well formed and disjoint, numbers are distinct, and the counters count. */
  ghost predicate Good(v: View, pending: set<nat>) {
    && Chain(v.heap, v.first, v.live) && Chain(v.heap, v.unused, v.idle) && Partition(v.heap, v.live, v.idle, pending)
    && Ids(v.heap, v.maxId) && v.active == |RunningIn(v.heap)| && Resting(v.heap, v.idle)
    && Loads(v.heap, v.contexts, v.leaked) && v.load == |v.contexts|
  }

  // Steps on the processes.

  function Delta(before: State, after: State): int {
    (if after.Running? then 1 else 0) - (if before.Running? then 1 else 0)
  }

  lemma RunningPut(heap: Heap, p: nat, r: Proc)
    ensures |RunningIn(heap[p := r])| == |RunningIn(heap)|
      + (if r.state.Running? then 1 else 0) - (if p in heap && heap[p].state.Running? then 1 else 0)
  {
    SizeWith(RunningIn(heap), RunningIn(heap[p := r]), p);
  }

  /** Sets that differ at one place. */
  lemma SizeWith(was: set<nat>, now: set<nat>, p: nat)
    requires forall q :: q != p ==> (q in now <==> q in was)
    ensures |now| == |was| + (if p in now then 1 else 0) - (if p in was then 1 else 0)
  {
    var rest := was - {p};
    assert was == if p in was then rest + {p} else rest;
    assert now == if p in now then rest + {p} else rest;
  }

  /** Same loads. */
  lemma LoadsSame(heap: Heap, later: Heap, contexts: map<nat, nat>, leaked: map<nat, nat>)
    requires Loads(heap, contexts, leaked) && forall p: nat :: LoadOf(later, p) == LoadOf(heap, p)
    ensures Loads(later, contexts, leaked)
  {
    hide BoundTo, Leak, LoadOf;
    forall p: nat | p != 0
      ensures LoadAt(later, contexts, leaked, p)
    {
      assert LoadAt(heap, contexts, leaked, p);
    }
  }

  /** Changing a process but not its number, links and load. */
  lemma TouchGood(v: View, pending: set<nat>, p: nat, r: Proc)
    requires Good(v, pending) && p in v.heap && (p in v.idle ==> !r.state.Running?)
    requires var o := v.heap[p]; r.id == o.id && r.load == o.load && (p !in pending ==> r.next == o.next && r.prev == o.prev)
    ensures Good(v.(heap := v.heap[p := r], active := v.active + Delta(v.heap[p].state, r.state)), pending)
  {
    hide Chain, Loads, RunningIn;
    PartitionOf(v, pending);
    ChainTouch(v.heap, v.first, v.live, p, r);
    ChainTouch(v.heap, v.unused, v.idle, p, r);
    RunningPut(v.heap, p, r);
    LoadsSame(v.heap, v.heap[p := r], v.contexts, v.leaked);
  }

  lemma PartitionOf(v: View, pending: set<nat>)
    requires Good(v, pending)
    ensures Partition(v.heap, v.live, v.idle, pending)
  {
  }

  /** Same processes but for their links. */
  ghost predicate SameBut(heap: Heap, later: Heap) {
    && heap.Keys == later.Keys
    && forall q :: q in heap ==> Data(later[q]) == Data(heap[q])
  }

  /** A process without its links. */
  function Data(r: Proc): Proc {
    r.(next := 0, prev := 0)
  }

  lemma SameFields(heap: Heap, later: Heap)
    requires SameBut(heap, later)
    ensures forall q :: q in heap ==> later[q].id == heap[q].id && later[q].load == heap[q].load && later[q].state == heap[q].state
  {
    forall q | q in heap
      ensures later[q].id == heap[q].id && later[q].load == heap[q].load && later[q].state == heap[q].state
    {
      assert Data(later[q]) == Data(heap[q]);
    }
  }

  lemma PushedSame(heap: Heap, head: nat, p: nat)
    requires p in heap && (head != 0 ==> head in heap)
    ensures SameBut(heap, Pushed(heap, head, p))
  {
  }

  lemma UnlinkedSame(heap: Heap, p: nat)
    requires Closed(heap, p)
    ensures SameBut(heap, Unlinked(heap, p))
  {
  }

  lemma SameData(v: View, pending: set<nat>, later: Heap)
    requires SameBut(v.heap, later) && Good(v, pending)
    ensures Partition(later, v.live, v.idle, pending) && Ids(later, v.maxId) && Loads(later, v.contexts, v.leaked)
    ensures Resting(later, v.idle) && RunningIn(later) == RunningIn(v.heap)
  {
    hide Chain, Loads;
    SameFields(v.heap, later);
    LoadsSame(v.heap, later, v.contexts, v.leaked);
  }

  /** The lists after p went to the front of one. */
  function AfterPush(v: View, p: nat, toLive: bool): View
    requires p in v.heap && (v.first != 0 ==> v.first in v.heap) && (v.unused != 0 ==> v.unused in v.heap)
  {
    if toLive then v.(heap := Pushed(v.heap, v.first, p), first := p, live := [p] + v.live)
    else v.(heap := Pushed(v.heap, v.unused, p), unused := p, idle := [p] + v.idle)
  }

  lemma Heads(v: View, pending: set<nat>)
    requires Good(v, pending)
    ensures (v.first != 0 ==> v.first in v.heap) && (v.unused != 0 ==> v.unused in v.heap)
  {
    HeadIn(v.heap, v.first, v.live);
    HeadIn(v.heap, v.unused, v.idle);
  }

  /** A process outside the lists goes to the front of one. */
  lemma PushGood(v: View, p: nat, toLive: bool)
    requires Good(v, {p}) && p in v.heap && v.heap[p].prev == 0
    requires !toLive ==> v.heap[p].load == 0 && !v.heap[p].state.Running?
    ensures (v.first != 0 ==> v.first in v.heap) && (v.unused != 0 ==> v.unused in v.heap)
    ensures Good(AfterPush(v, p, toLive), {})
  {
    hide Chain, Loads, Ids, RunningIn, Pushed;
    Heads(v, {p});
    var head := if toLive then v.first else v.unused;
    PushedSame(v.heap, head, p);
    SameData(v, {p}, Pushed(v.heap, head, p));
    if toLive {
      PushedChain(v.heap, v.first, v.live, p);
      PushedOther(v.heap, v.first, v.live, p, v.unused, v.idle);
    } else {
      PushedChain(v.heap, v.unused, v.idle, p);
      PushedOther(v.heap, v.unused, v.idle, p, v.first, v.live);
    }
  }

  /** The lists after the process at position i of one was taken out. */
  function AfterUnlink(v: View, i: nat, fromLive: bool): View
    requires i < |if fromLive then v.live else v.idle| && Closed(v.heap, (if fromLive then v.live else v.idle)[i])
  {
    var p := (if fromLive then v.live else v.idle)[i];
    if fromLive then
      v.(heap := Unlinked(v.heap, p), first := if v.heap[p].prev == 0 then v.heap[p].next else v.first, live := Removed(v.live, i))
    else
      v.(heap := Unlinked(v.heap, p), unused := if v.heap[p].prev == 0 then v.heap[p].next else v.unused, idle := Removed(v.idle, i))
  }

  lemma UnlinkGood(v: View, i: nat, fromLive: bool)
    requires Good(v, {}) && i < |if fromLive then v.live else v.idle|
    ensures var p := (if fromLive then v.live else v.idle)[i];
      && Closed(v.heap, p) && (v.heap[p].prev == 0 <==> i == 0) && (i == 0 <==> p == if fromLive then v.first else v.unused)
      && (!fromLive ==> v.heap[p].load == 0 && !v.heap[p].state.Running?)
      && Good(AfterUnlink(v, i, fromLive), {p})
  {
    hide Chain, Unlinked, Loads, Ids, RunningIn, Closed, Removed;
    var l, head := if fromLive then v.live else v.idle, if fromLive then v.first else v.unused;
    var p := l[i];
    assert p in l;
    Neighbours(v.heap, head, l, i);
    UnlinkedSame(v.heap, p);
    SameData(v, {}, Unlinked(v.heap, p));
    RemovedHas(v.heap, head, l, i);
    UnlinkedChain(v.heap, head, l, i);
    if fromLive {
      UnlinkedOther(v.heap, head, l, i, v.unused, v.idle);
    } else {
      UnlinkedOther(v.heap, head, l, i, v.first, v.live);
    }
  }

  lemma RemovedHas(heap: Heap, head: nat, l: seq<nat>, i: nat)
    requires Chain(heap, head, l) && i < |l|
    ensures forall x :: x in Removed(l, i) <==> x in l && x != l[i]
  {
    forall x | x in l && x != l[i]
      ensures x in Removed(l, i)
    {
      var k :| 0 <= k < |l| && l[k] == x;
      assert Removed(l, i)[if k < i then k else k - 1] == x;
    }
  }

  /** A list in a table that keeps its processes. */
  lemma ChainKept(heap: Heap, later: Heap, head: nat, l: seq<nat>)
    requires Chain(heap, head, l) && forall x :: x in l && x in heap ==> x in later && later[x] == heap[x]
    ensures Chain(later, head, l)
  {
    forall i: nat | i < |l|
      ensures Linked(later, l, i)
    {
      assert Linked(heap, l, i) && l[i] in l;
    }
  }

  function NewProc(id: nat): Proc {
    Proc(id, 0, 0, Died, 0, 0, 0, false, 0)
  }

  /** A new process. */
  lemma FreshGood(v: View, p: nat)
    requires Good(v, {}) && p !in v.heap && p != 0 && v.maxId >= 0
    ensures Good(v.(heap := v.heap[p := NewProc(v.maxId)], maxId := v.maxId + 1), {p})
  {
    hide Chain, Loads, RunningIn;
    var r := NewProc(v.maxId);
    var h := v.heap[p := r];
    RunningPut(v.heap, p, r);
    ChainKept(v.heap, h, v.first, v.live);
    ChainKept(v.heap, h, v.unused, v.idle);
    LoadsSame(v.heap, h, v.contexts, v.leaked);
  }

  /** A process outside the lists without load is freed; the last number may be used again. */
  lemma FreeGood(v: View, p: nat)
    requires Good(v, {p}) && p in v.heap && v.heap[p].load == 0 && !v.heap[p].state.Running?
    ensures Good(v.(heap := v.heap - {p}, maxId := if v.heap[p].id == v.maxId - 1 then v.maxId - 1 else v.maxId), {})
  {
    hide Chain, Loads, Ids, Partition, Resting;
    var h := v.heap - {p};
    FreeRest(v, p);
    assert RunningIn(h) == RunningIn(v.heap);
    ChainKept(v.heap, h, v.first, v.live);
    ChainKept(v.heap, h, v.unused, v.idle);
    LoadsSame(v.heap, h, v.contexts, v.leaked);
  }

  lemma FreeRest(v: View, p: nat)
    requires Good(v, {p}) && p in v.heap
    ensures var h := v.heap - {p};
      && Partition(h, v.live, v.idle, {}) && Ids(h, if v.heap[p].id == v.maxId - 1 then v.maxId - 1 else v.maxId) && Resting(h, v.idle)
    ensures p !in v.live && p !in v.idle
  {
    hide Chain, Loads, RunningIn;
  }

  // Steps on the requests.

  /** One process has one load more or less, and everything else is as before. */
  lemma LoadsChange(heap: Heap, later: Heap, was: map<nat, nat>, contexts: map<nat, nat>, leaked: map<nat, nat>, forgot: map<nat, nat>, p: nat)
    requires Loads(heap, was, leaked) && LoadAt(later, contexts, forgot, p)
    requires forall q: nat :: q != p && q != 0 ==>
      LoadOf(later, q) == LoadOf(heap, q) && BoundTo(contexts, q) == BoundTo(was, q) && Leak(forgot, q) == Leak(leaked, q)
    ensures Loads(later, contexts, forgot)
  {
    hide BoundTo, Leak, LoadOf;
    forall q: nat | q != 0
      ensures LoadAt(later, contexts, forgot, q)
    {
      assert LoadAt(heap, was, leaked, q);
    }
  }

  /** Another load for a process changes nothing else. */
  lemma LoadPut(v: View, p: nat, load: nat)
    requires p in v.heap && p !in v.idle && Good(v, {})
    ensures var h := v.heap[p := v.heap[p].(load := load)];
      && Chain(h, v.first, v.live) && Chain(h, v.unused, v.idle) && Partition(h, v.live, v.idle, {})
      && Ids(h, v.maxId) && RunningIn(h) == RunningIn(v.heap) && Resting(h, v.idle)
  {
    hide Chain, Loads;
    var r := v.heap[p].(load := load);
    ChainTouch(v.heap, v.first, v.live, p, r);
    ChainTouch(v.heap, v.unused, v.idle, p, r);
  }

  lemma AssignGood(v: View, c: nat)
    requires Good(v, {}) && c !in v.contexts
    ensures Good(v.(contexts := v.contexts[c := 0], load := v.load + 1), {})
  {
    hide Chain, Ids, RunningIn, Resting, Partition, Loads;
    var cs := v.contexts[c := 0];
    assert cs.Keys == v.contexts.Keys + {c};
    assert forall q: nat :: q != 0 ==> BoundTo(cs, q) == BoundTo(v.contexts, q);
    RenameBound(v, cs);
  }

  lemma RenameBound(v: View, cs: map<nat, nat>)
    requires Loads(v.heap, v.contexts, v.leaked) && forall q: nat :: q != 0 ==> BoundTo(cs, q) == BoundTo(v.contexts, q)
    ensures Loads(v.heap, cs, v.leaked)
  {
    hide BoundTo, Leak, LoadOf;
    forall q: nat | q != 0
      ensures LoadAt(v.heap, cs, v.leaked, q)
    {
      assert LoadAt(v.heap, v.contexts, v.leaked, q);
    }
  }

  /** A request forgets its process without telling it: the process has one more request leaked. */
  lemma ForgetGood(v: View, c: nat)
    requires Good(v, {}) && c in v.contexts && v.contexts[c] != 0
    ensures var p := v.contexts[c];
      Good(v.(contexts := v.contexts[c := 0], leaked := v.leaked[p := Leak(v.leaked, p) + 1]), {})
  {
    hide Chain, Ids, RunningIn, Resting, Partition, Loads;
    var p := v.contexts[c];
    var cs := v.contexts[c := 0];
    assert cs.Keys == v.contexts.Keys;
    BoundMoves(v.contexts, c, 0);
    LoadAtOf(v, p);
    LoadsChange(v.heap, v.heap, v.contexts, cs, v.leaked, v.leaked[p := Leak(v.leaked, p) + 1], p);
  }

  lemma LoadAtOf(v: View, p: nat)
    requires Good(v, {}) && p != 0
    ensures LoadAt(v.heap, v.contexts, v.leaked, p)
  {
    hide LoadAt;
  }

  /** Binding c to p takes it from its old process. */
  lemma BoundMoves(contexts: map<nat, nat>, c: nat, p: nat)
    requires c in contexts && contexts[c] != p
    ensures |BoundTo(contexts[c := p], p)| == |BoundTo(contexts, p)| + 1
    ensures |BoundTo(contexts[c := p], contexts[c])| == |BoundTo(contexts, contexts[c])| - 1
    ensures forall q: nat :: q != p && q != contexts[c] ==> BoundTo(contexts[c := p], q) == BoundTo(contexts, q)
  {
    var cs, o := contexts[c := p], contexts[c];
    assert BoundTo(cs, p) == BoundTo(contexts, p) + {c};
    assert BoundTo(contexts, o) == BoundTo(cs, o) + {c};
    forall q: nat | q != p && q != o
      ensures BoundTo(cs, q) == BoundTo(contexts, q)
    {
    }
  }

  lemma BindGood(v: View, c: nat, p: nat)
    requires Good(v, {}) && c in v.contexts && v.contexts[c] == 0 && p in v.live
    ensures p in v.heap && Good(v.(contexts := v.contexts[c := p], heap := v.heap[p := v.heap[p].(load := v.heap[p].load + 1)]), {})
  {
    hide Chain, Ids, RunningIn, Resting, Loads;
    PartitionOf(v, {});
    LoadPut(v, p, v.heap[p].load + 1);
    var cs := v.contexts[c := p];
    assert cs.Keys == v.contexts.Keys;
    BoundMoves(v.contexts, c, p);
    LoadAtOf(v, p);
    LoadsChange(v.heap, v.heap[p := v.heap[p].(load := v.heap[p].load + 1)], v.contexts, cs, v.leaked, v.leaked, p);
  }

  /** A request that is bound to a process is one of its load. */
  lemma BoundHasLoad(v: View, c: nat)
    requires Good(v, {}) && c in v.contexts && v.contexts[c] != 0
    ensures v.contexts[c] in v.heap && v.heap[v.contexts[c]].load > 0 && v.contexts[c] in v.live
  {
    hide Chain, Ids, RunningIn, Loads;
    LoadAtOf(v, v.contexts[c]);
    assert c in BoundTo(v.contexts, v.contexts[c]);
  }

  lemma ReleaseGood(v: View, c: nat)
    requires Good(v, {}) && c in v.contexts && v.contexts[c] != 0
    requires v.contexts[c] in v.heap && v.heap[v.contexts[c]].load > 0
    ensures var p := v.contexts[c];
      Good(v.(contexts := v.contexts[c := 0], heap := v.heap[p := v.heap[p].(load := v.heap[p].load - 1)]), {})
  {
    hide Chain, Ids, RunningIn, Loads;
    var p := v.contexts[c];
    BoundHasLoad(v, c);
    LoadPut(v, p, v.heap[p].load - 1);
    var cs := v.contexts[c := 0];
    assert cs.Keys == v.contexts.Keys;
    BoundMoves(v.contexts, c, 0);
    LoadAtOf(v, p);
    LoadsChange(v.heap, v.heap[p := v.heap[p].(load := v.heap[p].load - 1)], v.contexts, cs, v.leaked, v.leaked, p);
  }

  lemma LeaveGood(v: View, c: nat)
    requires Good(v, {}) && c in v.contexts && v.contexts[c] == 0
    ensures Good(v.(contexts := v.contexts - {c}, load := v.load - 1), {})
  {
    hide Chain, Ids, RunningIn, Resting, Partition, Loads;
    var cs := v.contexts - {c};
    assert cs.Keys == v.contexts.Keys - {c};
    assert forall q: nat :: q != 0 ==> BoundTo(cs, q) == BoundTo(v.contexts, q);
    RenameBound(v, cs);
  }

  // The host.

  /** max_procs is at least 1 and min_procs at most that; a host with a program to start is local. */
  datatype Config = Config(minProcs: nat, maxProcs: nat, maxLoadPerProc: nat, idleTimeout: int, disableTime: int, local: bool)

  /** How an attempt to start a process ends: with no socket, with a server already there, without a
      new process, or with one, which may die at once. */
  datatype Start = NoSocket | AlreadyUp | ForkFailed | Forked(pid: int, diesAtOnce: bool)

  /** A process after a look at its child. */
  function AfterWait(r: Proc, now: int, exited: bool): Proc {
    if !r.isLocal || r.pid <= 0 || !exited then r
    else r.(pid := 0, state := Died, disabledUntil := if r.state.Killed? then r.disabledUntil else now)
  }

  /** A process after an attempt to start it. */
  function AfterStart(r: Proc, now: int, s: Start): Proc {
    match s
    case NoSocket => r
    case AlreadyUp => r.(isLocal := false, pid := 0, state := Running)
    case ForkFailed => r.(pid := 0, disabledUntil := now)
    case Forked(pid, diesAtOnce) =>
      var child := r.(pid := pid, lastUsed := now, isLocal := true);
      if diesAtOnce then AfterWait(child, now, true) else child.(state := Running)
  }

  /** A process after its pause may be over. */
  function AfterPause(r: Proc, now: int): Proc {
    if now > r.disabledUntil && r.state.Overloaded? then r.(state := Running) else r
  }

  /** A process after its turn to be started again if it is dead: not while requests are bound to it,
      nor as long as it is disabled. */
  function AfterTurn(local: bool, r: Proc, now: int, exited: bool, s: Start): Proc {
    match r.state
    case Running => r
    case Killed => r
    case Overloaded => AfterPause(r, now)
    case DiedWaitForPid => var w := AfterWait(r, now, exited); if w.state.Died? then AfterDeath(local, w, now, s) else w
    case Died => AfterDeath(local, r, now, s)
  }

  function AfterDeath(local: bool, r: Proc, now: int, s: Start): Proc {
    if local && r.load == 0 && r.disabledUntil < now then AfterStart(r, now, s) else r
  }

  /** What an attempt to start r makes of it, field by field. */
  ghost predicate StartedAs(r: Proc, a: Proc, now: int, s: Start) {
    match s
    case NoSocket => a == r
    case AlreadyUp => a == r.(isLocal := false, pid := 0, state := Running)
    case ForkFailed => a == r.(pid := 0, disabledUntil := now)
    case Forked(pid, false) => a == r.(pid := pid, lastUsed := now, isLocal := true, state := Running)
    case Forked(pid, true) =>
      if pid <= 0 then a == r.(pid := pid, lastUsed := now, isLocal := true)
      else a == r.(pid := 0, lastUsed := now, isLocal := true, state := Died, disabledUntil := if r.state.Killed? then r.disabledUntil else now)
  }

  lemma StartIs(r: Proc, now: int, s: Start)
    ensures StartedAs(r, AfterStart(r, now, s), now, s)
  {
  }

  /** What a turn makes of r. A dead process of a host with a program is started again if no request is
      bound to it and it is not disabled any more; one whose end is only now found out waits. */
  ghost predicate TurnedTo(local: bool, r: Proc, a: Proc, now: int, exited: bool, s: Start) {
    match r.state
    case Running => a == r
    case Killed => a == r
    case Overloaded => a == if now > r.disabledUntil then r.(state := Running) else r
    case DiedWaitForPid => a == if r.isLocal && r.pid > 0 && exited then r.(pid := 0, state := Died, disabledUntil := now) else r
    case Died => if local && r.load == 0 && r.disabledUntil < now then StartedAs(r, a, now, s) else a == r
  }

  lemma TurnIs(local: bool, r: Proc, now: int, exited: bool, s: Start)
    ensures TurnedTo(local, r, AfterTurn(local, r, now, exited, s), now, exited, s)
  {
    StartIs(r, now, s);
  }

  /** The listed processes have had their turn, and the others have not. */
  ghost predicate AllTurned(before: Heap, after: Heap, l: seq<nat>, local: bool, now: int, exited: map<nat, bool>, starts: map<nat, Start>) {
    && after.Keys == before.Keys
    && (forall q :: q in before && q !in l ==> after[q] == before[q])
    && forall q :: q in before && q in l ==> TurnedTo(local, before[q], after[q], now, Exits(exited, q), StartOf(starts, q))
  }

  lemma SweptTurns(before: Heap, after: Heap, l: seq<nat>, local: bool, now: int, exited: map<nat, bool>, starts: map<nat, Start>)
    requires Swept(before, after, l, |l|, TurnFor(local, now, exited, starts))
    ensures AllTurned(before, after, l, local, now, exited, starts)
  {
    hide AfterTurn, TurnedTo;
    assert l[..|l|] == l;
    forall q | q in before && q in l
      ensures TurnedTo(local, before[q], after[q], now, Exits(exited, q), StartOf(starts, q))
    {
      TurnIs(local, before[q], now, Exits(exited, q), StartOf(starts, q));
    }
  }

  /** The local processes of a list whose child exited are dead, and nothing else changes. */
  ghost predicate AllReaped(before: Heap, after: Heap, l: seq<nat>, now: int, exited: map<nat, bool>) {
    && after.Keys == before.Keys
    && forall q :: q in before ==>
         var r := before[q];
         after[q] == if q in l && r.isLocal && r.pid > 0 && Exits(exited, q)
                     then r.(pid := 0, state := Died, disabledUntil := if r.state.Killed? then r.disabledUntil else now) else r
  }

  lemma SweptReaps(before: Heap, after: Heap, l: seq<nat>, now: int, exited: map<nat, bool>)
    requires Swept(before, after, l, |l|, WaitFor(now, exited))
    ensures AllReaped(before, after, l, now, exited)
  {
    assert l[..|l|] == l;
  }

  /** A listed process that stays in the list is as it was, but for its links. */
  ghost predicate StayedAs(before: Heap, after: Heap, l: seq<nat>, m: seq<nat>) {
    forall q :: q in l && q in m && q in before ==> q in after && Data(after[q]) == Data(before[q])
  }

  predicate Starts(s: Start) {
    s.AlreadyUp? || (s.Forked? && !s.diesAtOnce)
  }

  lemma StartKeeps(r: Proc, now: int, s: Start)
    ensures var a := AfterStart(r, now, s);
      && a.load == r.load && a.id == r.id && a.next == r.next && a.prev == r.prev
      && (Starts(s) ==> a.state.Running?) && (!Starts(s) ==> a.state.Died? || a.state == r.state)
  {
  }

  function WaitFor(now: int, exited: map<nat, bool>): (nat, Proc) -> Proc {
    (q: nat, r: Proc) => AfterWait(r, now, Exits(exited, q))
  }

  function PauseFor(now: int): (nat, Proc) -> Proc {
    (q: nat, r: Proc) => AfterPause(r, now)
  }

  function TurnFor(local: bool, now: int, exited: map<nat, bool>, starts: map<nat, Start>): (nat, Proc) -> Proc {
    (q: nat, r: Proc) => AfterTurn(local, r, now, Exits(exited, q), StartOf(starts, q))
  }

  /** A listed process after its child exited. */
  function AfterExit(r: Proc, now: int, s: Start): Proc {
    var dead := r.(state := Died, pid := 0);
    if dead.disabledUntil < now then AfterStart(dead.(disabledUntil := now), now, s) else dead
  }

  /** What the exit of its child makes of a listed process, field by field: it is started again, unless that
      is too soon. */
  ghost predicate ExitedTo(r: Proc, a: Proc, now: int, s: Start) {
    if r.disabledUntil < now then StartedAs(r.(state := Died, pid := 0, disabledUntil := now), a, now, s)
    else a == r.(state := Died, pid := 0)
  }

  lemma ExitIs(r: Proc, now: int, s: Start)
    ensures ExitedTo(r, AfterExit(r, now, s), now, s)
  {
    StartIs(r.(state := Died, pid := 0, disabledUntil := now), now, s);
  }

  /** The paused processes of a list whose time has come run again, and nothing else changes. */
  ghost predicate AllEnabled(before: Heap, after: Heap, l: seq<nat>, now: int) {
    && after.Keys == before.Keys
    && forall q :: q in before ==>
         after[q] == if q in l && before[q].state.Overloaded? && before[q].disabledUntil < now then before[q].(state := Running) else before[q]
  }

  lemma SweptEnables(before: Heap, after: Heap, l: seq<nat>, now: int)
    requires Swept(before, after, l, |l|, PauseFor(now))
    ensures AllEnabled(before, after, l, now)
  {
    assert l[..|l|] == l;
  }

  predicate IsChild(heap: Heap, q: nat, pid: int) {
    q in heap && heap[q].isLocal && heap[q].pid == pid
  }

  /** The process at position i has no load, has a child and was not used since the given time. */
  predicate Idles(heap: Heap, live: seq<nat>, i: nat, since: int)
    requires i < |live|
  {
    live[i] in heap && heap[live[i]].load == 0 && heap[live[i]].pid > 0 && heap[live[i]].lastUsed < since
  }

  ghost predicate AllBusy(heap: Heap, live: seq<nat>, limit: nat) {
    forall i: nat :: i < |live| && live[i] in heap ==> heap[live[i]].load > limit
  }

  /** Exactly the first i processes of a list were changed by f. */
  ghost predicate Swept(before: Heap, after: Heap, l: seq<nat>, i: nat, f: (nat, Proc) -> Proc) {
    && i <= |l| && after.Keys == before.Keys
    && forall q :: q in before ==> after[q] == if q in l[..i] then f(q, before[q]) else before[q]
  }

  lemma NotSwept(heap: Heap, l: seq<nat>, f: (nat, Proc) -> Proc)
    ensures Swept(heap, heap, l, 0, f)
  {
  }

  lemma SweptStep(before: Heap, after: Heap, l: seq<nat>, i: nat, f: (nat, Proc) -> Proc)
    requires Swept(before, after, l, i, f) && NoDups(l) && i < |l| && l[i] in after
    ensures l[i] in before && after[l[i]] == before[l[i]]
    ensures Swept(before, after[l[i] := f(l[i], after[l[i]])], l, i + 1, f)
  {
    assert l[..i + 1] == l[..i] + [l[i]];
  }

  lemma SweptKeys(a: Heap, b: Heap, c: Heap, l: seq<nat>, now: int, local: bool, exited: map<nat, bool>, starts: map<nat, Start>)
    requires Swept(a, b, l, |l|, WaitFor(now, exited))
    requires Swept(b, c, l, |l|, TurnFor(local, now, exited, starts))
    ensures a.Keys == c.Keys
  {
  }

  function StartOf(starts: map<nat, Start>, p: nat): Start {
    if p in starts then starts[p] else NoSocket
  }

  function Exits(exited: map<nat, bool>, p: nat): bool {
    p in exited && exited[p]
  }

  /** How gw_proc_spawn ends. */
  datatype Spawned = NotTried | NoAddress | Failed | Started

  /** What gw_proc_spawn makes of the processes: the first unused one without a child, at position i,
      or a new one, is p; unless it exited just now, it is started and put to the front of the list, or
      of the unused ones if it does not start, or freed if it has no address. */
  ghost predicate SpawnOk(v: View, w: View, now: int, fresh_: nat, hasAddress: bool, s: Start, r: Spawned, p: nat, i: nat) {
    && FirstFree(v.heap, v.idle, i) && v.maxId >= 0
    && r == (if i < |v.idle| && v.heap[v.idle[i]].disabledUntil >= now then NotTried
             else if !hasAddress then NoAddress else if Starts(s) then Started else Failed)
    && w.live == (if r.Started? then [p] else []) + v.live
    && (r.NotTried? ==> w.heap == v.heap && w.idle == v.idle)
    && (!r.NotTried? ==>
          && p == (if i < |v.idle| then v.idle[i] else fresh_)
          && w.idle == (if r.Failed? then [p] else []) + (if i < |v.idle| then Removed(v.idle, i) else v.idle)
          && OthersSame(v.heap, w.heap, p) && (p in w.heap <==> !r.NoAddress?)
          && (p in w.heap ==> Data(w.heap[p]) == Data(AfterStart(Obtained(v.heap, v.idle, v.maxId, i), now, s))))
  }

  /** What the end of an idle process makes of them: if there may be fewer, the first idle one, at
      position j, leaves the list. */
  ghost predicate KillOk(v: View, w: View, since: int, fewer: bool, killed: bool, j: nat) {
    && (killed <==> fewer && j < |v.live|)
    && (fewer ==> forall k: nat :: k < j && k < |v.live| ==> !Idles(v.heap, v.live, k, since))
    && if killed then
      && Idles(v.heap, v.live, j, since)
      && w.live == Removed(v.live, j) && w.idle == [v.live[j]] + v.idle && OthersSame(v.heap, w.heap, v.live[j])
    else w.heap == v.heap && w.live == v.live && w.idle == v.idle
  }

  /** Starting a process leaves the listed ones alone. */
  lemma SpawnStays(v: View, w: View, now: int, fresh_: nat, hasAddress: bool, s: Start, r: Spawned, p: nat, i: nat)
    requires Good(v, {}) && fresh_ !in v.heap && SpawnOk(v, w, now, fresh_, hasAddress, s, r, p, i)
    ensures StayedAs(v.heap, w.heap, v.live, v.live) && forall q :: q in v.live ==> q in w.live
  {
    hide Chain, Ids, RunningIn, Loads, Resting, Obtained, AfterStart;
    PartitionOf(v, {});
    if i < |v.idle| { assert v.idle[i] in v.idle; }
  }

  /** Ending one leaves those alone that stay. */
  lemma KillStays(v: View, w: View, since: int, fewer: bool, killed: bool, j: nat)
    requires Good(v, {}) && KillOk(v, w, since, fewer, killed, j)
    ensures StayedAs(v.heap, w.heap, v.live, w.live) && forall q :: q in w.live ==> q in v.live
  {
    hide Chain, Ids, RunningIn, Loads, Resting, Idles;
    PartitionOf(v, {});
    AllDistinct(v);
    if killed {
      assert v.live[j] !in Removed(v.live, j);
    }
  }

  lemma ReapStays(v: View, heap: Heap, now: int, exited: map<nat, bool>)
    requires Good(v, {}) && Swept(v.heap, heap, v.idle, |v.idle|, WaitFor(now, exited))
    ensures StayedAs(v.heap, heap, v.live, v.live)
  {
    hide Chain, Ids, RunningIn, Loads, Resting, AfterWait;
    PartitionOf(v, {});
    assert v.idle[..|v.idle|] == v.idle;
  }

  lemma NoneStays(v: View)
    ensures StayedAs(v.heap, v.heap, v.live, v.live)
  {
  }

  lemma StaysOn(a: Heap, b: Heap, c: Heap, d: Heap, l: seq<nat>, l1: seq<nat>, l2: seq<nat>)
    requires StayedAs(a, b, l, l) && (forall q :: q in l ==> q in l1) && StayedAs(b, c, l1, l2) && StayedAs(c, d, l2, l2)
    ensures StayedAs(a, d, l, l2)
  {
    hide Data;
  }

  lemma NoKill(v: View, since: int, j: nat)
    ensures KillOk(v, v, since, false, false, j)
  {
  }

  class Host {
    const cfg: Config
    var heap: Heap
    var first: nat
    var unused: nat
    var numProcs: int
    var active: int
    var maxId: int
    var load: int
    var contexts: map<nat, nat>
    ghost var live: seq<nat>
    ghost var idle: seq<nat>
    ghost var leaked: map<nat, nat>
    /** Spawns that left their process in the unused list. */
    ghost var failures: nat

    ghost function Now(): View
      reads this`heap, this`first, this`unused, this`active, this`maxId, this`load, this`contexts, this`live, this`idle, this`leaked
    {
      View(heap, first, unused, active, maxId, load, contexts, live, idle, leaked)
    }

    /** The lists and counters are right. */
    ghost predicate Sound(pending: set<nat>)
      reads this`heap, this`first, this`unused, this`active, this`maxId, this`load, this`contexts, this`live, this`idle, this`leaked
    {
      Good(Now(), pending) && maxId >= 0
    }

    /** The invariant of every reachable state. num_procs is off by the spawns that failed. */
    ghost predicate Valid()
      reads this
    {
      && Sound({})
      && numProcs == |live| + failures
      && cfg.minProcs <= numProcs <= cfg.maxProcs && cfg.maxProcs >= 1
    }

    /** What the counters say, spelled out. */
    lemma Meaning()
      requires Valid()
      ensures active == |RunningIn(heap)| && load == |contexts| && |live| <= numProcs
      ensures forall p :: p in heap <==> p in live || p in idle
      ensures forall p :: p in live ==> p !in idle
      ensures forall p :: p in heap ==> heap[p].id < maxId && heap[p].load == |BoundTo(contexts, p)| + Leak(leaked, p)
      ensures forall p, q :: p in heap && q in heap && heap[p].id == heap[q].id ==> p == q
      ensures forall c :: c in contexts && contexts[c] != 0 ==> contexts[c] in live
    {
      hide Chain;
      forall p | p in heap
        ensures heap[p].load == |BoundTo(contexts, p)| + Leak(leaked, p)
      {
        LoadAtOf(Now(), p);
      }
      forall c | c in contexts && contexts[c] != 0
        ensures contexts[c] in live
      {
        BoundHasLoad(Now(), c);
      }
    }

    /** A host at a remote address: one process that is taken to run. */
    constructor Remote(cfg: Config, p: nat)
      requires p != 0
      ensures Valid() && fresh(this) && live == [p] && numProcs == 1 && active == 1 && contexts == map[]
      ensures this.cfg == cfg.(minProcs := 1, maxProcs := 1) && heap[p].state.Running?
    {
      this.cfg := cfg.(minProcs := 1, maxProcs := 1);
      heap := map[p := NewProc(0).(state := Running)];
      first, unused, numProcs, active, maxId, load, contexts := p, 0, 1, 1, 1, 0, map[];
      live, idle, leaked, failures := [p], [], map[], 0;
      new;
      RemoteGood(Now(), p);
    }

    /** A local host before its first processes are started. min_procs is at most max_procs, and
        max_procs with more than one worker. */
    constructor Local(cfg: Config, workers: nat)
      requires cfg.maxProcs >= 1
      ensures fresh(this) && Sound({}) && live == [] && idle == [] && numProcs == 0 && active == 0 && maxId == 0 && contexts == map[] && heap == map[]
      ensures leaked == map[] && failures == 0 && load == 0
      ensures this.cfg == cfg.(minProcs := if workers != 0 || cfg.minProcs > cfg.maxProcs then cfg.maxProcs else cfg.minProcs)
      ensures this.cfg.minProcs == 0 ==> Valid()
    {
      this.cfg := cfg.(minProcs := if workers != 0 || cfg.minProcs > cfg.maxProcs then cfg.maxProcs else cfg.minProcs);
      heap := map[];
      first, unused, numProcs, active, maxId, load, contexts := 0, 0, 0, 0, 0, 0, map[];
      live, idle, leaked, failures := [], [], map[], 0;
      new;
      EmptyGood(Now());
    }

    /** One process of those the server starts with. */
    method Begin(p: nat, now: int, preflight: bool, hasAddress: bool, s: Start) returns (ok: bool)
      requires Sound({}) && p != 0 && p !in heap && (s.Forked? ==> s.pid > 0)
      modifies this
      ensures ok == (hasAddress && (preflight || Starts(s)))
      ensures contexts == old(contexts) && load == old(load) && leaked == old(leaked) && failures == old(failures)
      ensures ok ==> Sound({}) && live == [p] + old(live) && idle == old(idle)
      ensures ok ==> numProcs == old(numProcs) + 1 && maxId == old(maxId) + 1 && active == old(active) + if preflight then 0 else 1
      ensures ok ==> heap.Keys == old(heap).Keys + {p} && OthersSame(old(heap), heap, p) && Data(heap[p]) == Data(Begun(old(maxId), now, preflight, s))
    {
      hide Good, Host.Sound, Host.Now, NoDups, RunningIn, AfterStart, Chain, Partition, OthersSame;
      AddFresh(p);
      numProcs := numProcs + 1;
      if !hasAddress { return false; }
      OutOfLists(p);
      if !preflight {
        StartKeeps(heap[p], now, s);
        var started := SpawnConnection(p, now, s, {p});
        if !started { return false; }
      }
      ghost var begun := heap;
      Link(p, true);
      KeptBegun(old(heap), begun, heap, p);
      return true;
    }

    /** The start of the server: min_procs processes are started, unless it only checks its
        configuration, and put to the front of the list one after the other. If one has no address or
        does not start, the server does not start. fresh_ are the addresses of new processes. */
    method SpawnMin(now: int, preflight: bool, fresh_: seq<nat>, addresses: seq<bool>, starts: seq<Start>) returns (ok: bool)
      requires Sound({}) && live == [] && idle == [] && heap == map[] && numProcs == maxId == active == 0 && failures == 0
      requires cfg.minProcs <= cfg.maxProcs && cfg.maxProcs >= 1
      requires |fresh_| == |addresses| == |starts| == cfg.minProcs && NoDups(fresh_) && 0 !in fresh_
      requires forall s :: s in starts && s.Forked? ==> s.pid > 0
      modifies this
      ensures ok <==> forall k :: 0 <= k < cfg.minProcs ==> addresses[k] && (preflight || Starts(starts[k]))
      ensures ok ==> Valid() && |live| == numProcs == maxId == cfg.minProcs && idle == []
      ensures ok ==> AllBegun(heap, live, fresh_, cfg.minProcs, now, preflight, starts)
      ensures ok ==> active == if preflight then 0 else cfg.minProcs
      ensures contexts == old(contexts) && load == old(load) && leaked == old(leaked)
    {
      hide Good, Host.Sound, Host.Now, NoDups, RunningIn, AfterStart, Chain, Partition, OthersSame, AllBegun, Data, Begun;
      NoneBegun(heap, live, fresh_, now, preflight, starts);
      for pno := 0 to cfg.minProcs
        invariant Sound({}) && |live| == numProcs == maxId == pno && idle == [] && failures == 0 && NoDups(fresh_)
        invariant forall k :: 0 <= k < pno ==> addresses[k] && (preflight || Starts(starts[k]))
        invariant contexts == old(contexts) && load == old(load) && leaked == old(leaked)
        invariant AllBegun(heap, live, fresh_, pno, now, preflight, starts)
        invariant active == if preflight then 0 else pno
      {
        NotBegun(heap, live, fresh_, pno, now, preflight, starts);
        ghost var before, list := heap, live;
        ok := Begin(fresh_[pno], now, preflight, addresses[pno], starts[pno]);
        if !ok { return; }
        OneMoreBegun(before, list, heap, live, fresh_, pno, now, preflight, starts);
      }
      ok := true;
    }

    /** gw_proc_set_state: active_procs follows. */
    method SetState(p: nat, s: State, ghost pending: set<nat>)
      requires Sound(pending) && p in heap && (p in idle ==> !s.Running?)
      modifies `heap, `active
      ensures Sound(pending) && heap == old(heap)[p := old(heap)[p].(state := s)]
      ensures active == old(active) + Delta(old(heap)[p].state, s)
    {
      hide Good;
      TouchGood(Now(), pending, p, heap[p].(state := s));
      if heap[p].state == s {
        assert heap == heap[p := heap[p].(state := s)];
        return;
      }
      if heap[p].state.Running? {
        active := active - 1;
      } else if s.Running? {
        active := active + 1;
      }
      heap := heap[p := heap[p].(state := s)];
    }

    /** Assignments to fields that are neither links nor counted. */
    method Note(p: nat, r: Proc, ghost pending: set<nat>)
      requires Sound(pending) && p in heap
      requires r == heap[p].(pid := r.pid, disabledUntil := r.disabledUntil, isLocal := r.isLocal, lastUsed := r.lastUsed)
      modifies `heap
      ensures Sound(pending) && heap == old(heap)[p := r]
    {
      hide Good;
      RestOf(Now(), pending);
      TouchGood(Now(), pending, p, r);
      heap := heap[p := r];
    }

    /** gw_proc_check_enable. */
    method CheckEnable(p: nat, now: int)
      requires Sound({}) && p in heap && p !in idle
      modifies `heap, `active
      ensures Sound({})
      ensures heap == old(heap)[p := AfterPause(old(heap)[p], now)]
    {
      assert heap == heap[p := heap[p]];
      if now <= heap[p].disabledUntil { return; }
      if !heap[p].state.Overloaded? { return; }
      SetState(p, Running, {});
    }

    /** gw_proc_waitpid, when the child has exited or not. */
    method WaitPid(p: nat, now: int, exited: bool, ghost pending: set<nat>) returns (gone: bool)
      requires Sound(pending) && p in heap
      modifies `heap, `active
      ensures Sound(pending) && gone == (old(heap)[p].isLocal && old(heap)[p].pid > 0 && exited)
      ensures heap == old(heap)[p := AfterWait(old(heap)[p], now, exited)]
      ensures active == old(active) + Delta(old(heap)[p].state, heap[p].state)
    {
      hide Good, Host.Sound, Host.Now;
      assert heap == heap[p := heap[p]];
      if !heap[p].isLocal || heap[p].pid <= 0 || !exited { return false; }
      Note(p, heap[p].(pid := 0), pending);
      if !heap[p].state.Killed? { Note(p, heap[p].(disabledUntil := now), pending); }
      SetState(p, Died, pending);
      return true;
    }

    /** gw_spawn_connection. */
    method SpawnConnection(p: nat, now: int, s: Start, ghost pending: set<nat>) returns (ok: bool)
      requires Sound(pending) && p in heap && p !in idle && (s.Forked? ==> s.pid > 0)
      modifies `heap, `active
      ensures Sound(pending) && heap == old(heap)[p := AfterStart(old(heap)[p], now, s)]
      ensures active == old(active) + Delta(old(heap)[p].state, heap[p].state)
      ensures ok == Starts(s) && (ok ==> heap[p].state.Running?)
    {
      hide Good, Host.Sound, Host.Now;
      assert heap == heap[p := heap[p]];
      match s {
        case NoSocket => return false;
        case AlreadyUp =>
          Note(p, heap[p].(isLocal := false, pid := 0), pending);
        case ForkFailed =>
          Note(p, heap[p].(pid := 0, disabledUntil := now), pending);
          return false;
        case Forked(pid, diesAtOnce) =>
          Note(p, heap[p].(pid := pid, lastUsed := now, isLocal := true), pending);
          var gone := WaitPid(p, now, diesAtOnce, pending);
          if gone { return false; }
      }
      SetState(p, Running, pending);
      return true;
    }

    /** A process that can be started again: the first unused one without a child, unless one exited
        just now. */
    method FindUnused(now: int) returns (p: nat, tooEarly: bool, ghost i: nat)
      requires Sound({})
      ensures i <= |idle| && (forall k: nat :: k < i && idle[k] in heap ==> heap[idle[k]].pid > 0)
      ensures p == At(idle, i) && (i == |idle| <==> p == 0)
      ensures p != 0 ==> p in heap && heap[p].pid <= 0
      ensures tooEarly <==> p != 0 && p in heap && heap[p].disabledUntil >= now
    {
      hide Good, Chain;
      FirstOf(Now());
      p, i, tooEarly := unused, 0, false;
      while p != 0
        invariant i <= |idle| && p == At(idle, i) && !tooEarly
        invariant forall k: nat :: k < i && idle[k] in heap ==> heap[idle[k]].pid > 0
        decreases |idle| - i
      {
        IdleAt(Now(), {}, i);
        if heap[p].pid > 0 {
          p := heap[p].next;
          i := i + 1;
          continue;
        }
        if heap[p].disabledUntil >= now { tooEarly := true; }
        return;
      }
      EndOfIdle(Now(), i);
    }

    /** p leaves the unused list. */
    method TakeUnused(p: nat, ghost i: nat)
      requires Sound({}) && i < |idle| && idle[i] == p
      modifies `heap, `unused, `idle
      ensures Sound({p}) && idle == Removed(old(idle), i) && p in heap && p in old(heap)
      ensures heap[p] == old(heap)[p].(prev := 0, next := 0) && heap[p].load == 0 && !heap[p].state.Running?
      ensures SameBut(old(heap), heap)
    {
      hide Good, Chain, Removed, Unlinked;
      ghost var v := Now();
      UnlinkGood(v, i, false);
      ghost var after := AfterUnlink(v, i, false);
      if p == unused {
        unused := heap[p].next;
      } else {
        heap := heap[heap[p].prev := heap[heap[p].prev].(next := heap[p].next)];
      }
      idle := Removed(idle, i);
      var next := heap[p].next;
      if next != 0 {
        heap := heap[next := heap[next].(prev := heap[p].prev)];
        heap := heap[p := heap[p].(next := 0)];
      }
      heap := heap[p := heap[p].(prev := 0)];
      SameUnlink(v, i, p, after.heap, heap);
      TouchGood(after, {p}, p, heap[p]);
    }

    /** gw_proc_init, with the next number. */
    method AddFresh(p: nat)
      requires Sound({}) && p != 0 && p !in heap
      modifies `heap, `maxId
      ensures Sound({p}) && heap == old(heap)[p := NewProc(old(maxId))] && maxId == old(maxId) + 1
    {
      hide Good;
      FreshGood(Now(), p);
      heap := heap[p := NewProc(maxId)];
      maxId := maxId + 1;
    }

    lemma OutOfLists(p: nat)
      requires Sound({p})
      ensures p !in idle && p !in live && (p in heap ==> p != 0)
    {
      PendingOut(Now(), p);
    }

    /** p is freed, and its number used again if it was the last. */
    method Free(p: nat)
      requires Sound({p}) && p in heap && heap[p].load == 0 && !heap[p].state.Running? && p != 0
      modifies `heap, `maxId
      ensures Sound({}) && heap == old(heap) - {p}
    {
      hide Good;
      FreeGood(Now(), p);
      if heap[p].id == maxId - 1 { maxId := maxId - 1; }
      heap := heap - {p};
    }

    /** p goes to the front of the list of processes or of the unused ones. */
    method Link(p: nat, toLive: bool)
      requires Sound({p}) && p in heap && heap[p].prev == 0 && p != 0
      requires !toLive ==> heap[p].load == 0 && !heap[p].state.Running?
      modifies `heap, `first, `unused, `live, `idle
      ensures Sound({}) && p in heap && heap[p] == old(heap)[p].(next := heap[p].next) && SameBut(old(heap), heap)
      ensures live == (if toLive then [p] else []) + old(live) && idle == (if toLive then [] else [p]) + old(idle)
    {
      hide Good;
      PushGood(Now(), p, toLive);
      HeadElsewhere(Now(), p);
      PushedSame(heap, if toLive then first else unused, p);
      var head := if toLive then first else unused;
      heap := heap[p := heap[p].(next := head)];
      if head != 0 { heap := heap[head := heap[head].(prev := p)]; }
      if toLive {
        first := p;
        live := [p] + live;
      } else {
        unused := p;
        idle := [p] + idle;
      }
    }

    /** The process to start: the first unused one without a child, or a new one. */
    method Obtain(now: int, fresh_: nat) returns (q: nat, tooEarly: bool, ghost i: nat)
      requires Sound({}) && fresh_ != 0 && fresh_ !in heap
      modifies `heap, `unused, `idle, `maxId
      ensures FirstFree(old(heap), old(idle), i)
      ensures tooEarly <==> i < |old(idle)| && old(heap)[old(idle)[i]].disabledUntil >= now
      ensures tooEarly ==> Sound({}) && heap == old(heap) && idle == old(idle)
      ensures !tooEarly ==>
        && Sound({q}) && q == (if i < |old(idle)| then old(idle)[i] else fresh_)
        && q in heap && heap[q].prev == 0 && heap[q].load == 0 && !heap[q].state.Running?
        && heap[q] == Obtained(old(heap), old(idle), old(maxId), i)
        && idle == (if i < |old(idle)| then Removed(old(idle), i) else old(idle))
        && OthersSame(old(heap), heap, q)
    {
      hide Good, Host.Sound, Host.Now, Chain, Partition, RunningIn;
      q, tooEarly, i := FindUnused(now);
      if tooEarly { return; }
      if q != 0 {
        TakeUnused(q, i);
      } else {
        q := fresh_;
        AddFresh(q);
      }
    }

    /** gw_proc_spawn: an unused process or a new one is started and put to the front of the list of
        processes, or of the unused ones if it does not start, or freed if it has no address. The
        process is the unused one at position i, or a new one if i is beyond them. */
    method Spawn(now: int, fresh_: nat, hasAddress: bool, s: Start) returns (r: Spawned, ghost p: nat, ghost i: nat)
      requires Valid() && numProcs < cfg.maxProcs && fresh_ != 0 && fresh_ !in heap && (s.Forked? ==> s.pid > 0)
      modifies this
      ensures Valid() && contexts == old(contexts) && leaked == old(leaked) && load == old(load)
      ensures FirstFree(old(heap), old(idle), i)
      ensures r == if i < |old(idle)| && old(heap)[old(idle)[i]].disabledUntil >= now then NotTried
        else if !hasAddress then NoAddress else if Starts(s) then Started else Failed
      ensures r.NotTried? ==> heap == old(heap) && idle == old(idle)
      ensures !r.NotTried? ==> p == if i < |old(idle)| then old(idle)[i] else fresh_
      ensures numProcs == old(numProcs) + if r.Started? || r.Failed? then 1 else 0
      ensures failures == old(failures) + if r.Failed? then 1 else 0
      ensures active == old(active) + if r.Started? then 1 else 0
      ensures live == (if r.Started? then [p] else []) + old(live)
      ensures !r.NotTried? ==> idle == (if r.Failed? then [p] else []) + if i < |old(idle)| then Removed(old(idle), i) else old(idle)
      ensures !r.NotTried? ==> OthersSame(old(heap), heap, p) && (p in heap <==> !r.NoAddress?)
      ensures r.Started? || r.Failed? ==> p in heap && Data(heap[p]) == Data(AfterStart(Obtained(old(heap), old(idle), old(maxId), i), now, s))
    {
      hide Good, Host.Sound, Host.Now, Chain, Partition, RunningIn, AfterStart, FirstFree, Obtained, Removed, OthersSame;
      var q, tooEarly;
      q, tooEarly, i := Obtain(now, fresh_);
      if tooEarly { return NotTried, 0, i; }
      p := q;
      numProcs := numProcs + 1;
      ghost var mid := heap;
      OutOfLists(q);
      if !hasAddress {
        numProcs := numProcs - 1;
        Free(q);
        OthersThen(old(heap), mid, heap, q, mid[q]);
        return NoAddress, p, i;
      }
      StartKeeps(heap[q], now, s);
      var ok := SpawnConnection(q, now, s, {q});
      ghost var started := heap[q];
      Link(q, ok);
      OthersThen(old(heap), mid, heap, q, started);
      if !ok { failures := failures + 1; }
      r := if ok then Started else Failed;
    }

    /** p leaves the list of processes. */
    method TakeLive(p: nat, ghost i: nat)
      requires Sound({}) && i < |live| && live[i] == p
      modifies `heap, `first, `live
      ensures Sound({p}) && live == Removed(old(live), i) && p in heap && p in old(heap)
      ensures heap[p] == old(heap)[p].(prev := 0) && SameBut(old(heap), heap)
    {
      hide Good, Chain, Removed;
      ghost var v := Now();
      UnlinkGood(v, i, true);
      ghost var after := AfterUnlink(v, i, true);
      var next, prev := heap[p].next, heap[p].prev;
      if next != 0 { heap := heap[next := heap[next].(prev := prev)]; }
      if prev != 0 { heap := heap[prev := heap[prev].(next := next)]; }
      if prev == 0 { first := next; }
      heap := heap[p := heap[p].(prev := 0)];
      live := Removed(live, i);
      SameKill(v, i, p, after.heap, heap);
      PendingOut(after, p);
      TouchGood(after, {p}, p, heap[p]);
    }

    /** gw_proc_kill: a process without load goes to the unused ones. Its state is set before it is
        linked again; nothing looks in between. */
    method Kill(p: nat, ghost i: nat)
      requires Valid() && i < |live| && live[i] == p && p in heap && heap[p].load == 0 && numProcs > cfg.minProcs
      modifies this
      ensures Valid() && live == Removed(old(live), i) && idle == [p] + old(idle)
      ensures OthersSame(old(heap), heap, p) && p in heap && Data(heap[p]) == Data(old(heap)[p].(state := Killed, disabledUntil := 0))
      ensures numProcs == old(numProcs) - 1 && failures == old(failures)
      ensures contexts == old(contexts) && leaked == old(leaked) && load == old(load)
      ensures active == old(active) - if old(heap)[p].state.Running? then 1 else 0
    {
      hide Good, Host.Sound, Host.Now, Chain, Partition, RunningIn, OthersSame, SameBut, Removed;
      TakeLive(p, i);
      RemovedSize(old(live), i);
      ghost var mid := heap;
      OutOfLists(p);
      Note(p, heap[p].(disabledUntil := 0), {p});
      SetState(p, Killed, {p});
      ghost var killed, unlinked := heap[p], heap;
      SameIsOthers(old(heap), mid, p);
      assert unlinked == mid[p := killed];
      LinkUnused(p);
      DataSame(unlinked, heap, p);
      OthersThen(old(heap), mid, heap, p, killed);
      numProcs := numProcs - 1;
    }

    /** Link to the unused list. */
    method LinkUnused(p: nat)
      requires Sound({p}) && p in heap && heap[p].prev == 0 && p != 0 && heap[p].load == 0 && !heap[p].state.Running?
      modifies `heap, `first, `unused, `live, `idle
      ensures Sound({}) && p in heap && live == old(live) && idle == [p] + old(idle)
      ensures SameBut(old(heap), heap)
    {
      Link(p, false);
    }

    /** gw_proc_connect_error. */
    method ConnectError(p: nat, pid: int, now: int)
      requires Sound({}) && p in heap && p !in idle
      modifies `heap, `active
      ensures Sound({}) && p in heap && heap == old(heap)[p := heap[p]]
      ensures (!old(heap)[p].isLocal || (old(heap)[p].pid == pid && old(heap)[p].state.Running?)) ==> heap[p].state.Overloaded? && heap[p].disabledUntil == now + cfg.disableTime
      ensures old(heap)[p].isLocal && (old(heap)[p].pid != pid || !old(heap)[p].state.Running?) ==> heap == old(heap)
      ensures heap[p].load == old(heap)[p].load
    {
      hide Good, Host.Sound, Host.Now;
      if !heap[p].isLocal {
        Note(p, heap[p].(disabledUntil := now + cfg.disableTime), {});
        SetState(p, Overloaded, {});
      } else if heap[p].pid == pid && heap[p].state.Running? {
        Note(p, heap[p].(disabledUntil := now + cfg.disableTime), {});
        SetState(p, Overloaded, {});
      } else {
        assert heap == heap[p := heap[p]];
      }
    }

    /** One round of gw_restart_dead_procs: a dead local process is started again once no request is
        bound to it any more; a paused one is enabled when its time has come. */
    method Restart(p: nat, now: int, exited: bool, s: Start)
      requires Sound({}) && p in heap && p !in idle && (s.Forked? ==> s.pid > 0)
      modifies `heap, `active
      ensures Sound({}) && heap == old(heap)[p := AfterTurn(cfg.local, old(heap)[p], now, exited, s)]
    {
      hide Good, Host.Sound, Host.Now, AfterStart;
      assert heap == heap[p := heap[p]];
      match heap[p].state {
        case Running => return;
        case Killed => return;
        case Overloaded => CheckEnable(p, now); return;
        case DiedWaitForPid =>
          var gone := WaitPid(p, now, exited, {});
          if !gone { CheckEnable(p, now); }
          if !heap[p].state.Died? { return; }
        case Died =>
      }
      if cfg.local {
        if heap[p].load != 0 { return; }
        if heap[p].disabledUntil >= now { return; }
        var ok := SpawnConnection(p, now, s, {});
      } else {
        CheckEnable(p, now);
      }
    }

    /** gw_restart_dead_procs over all processes, with what happens to the child of each. */
    method RestartDead(now: int, exited: map<nat, bool>, starts: map<nat, Start>)
      requires Valid() && forall q :: q in starts && starts[q].Forked? ==> starts[q].pid > 0
      modifies `heap, `active
      ensures Valid() && Swept(old(heap), heap, live, |live|, TurnFor(cfg.local, now, exited, starts))
      ensures AllTurned(old(heap), heap, live, cfg.local, now, exited, starts)
    {
      hide Good, Chain, Swept, AfterTurn, AllTurned;
      FirstOf(Now());
      ghost var f := TurnFor(cfg.local, now, exited, starts);
      NotSwept(heap, live, f);
      var p := first;
      ghost var i := 0;
      while p != 0
        invariant Sound({}) && i <= |live| && p == At(live, i) && Swept(old(heap), heap, live, i, f)
        decreases |live| - i
      {
        LiveAt(Now(), {}, i);
        AllDistinct(Now());
        SweptStep(old(heap), heap, live, i, f);
        Restart(p, now, Exits(exited, p), StartOf(starts, p));
        LiveAt(Now(), {}, i);
        p := heap[p].next;
        i := i + 1;
      }
      EndOf(Now(), i);
      SweptTurns(old(heap), heap, live, cfg.local, now, exited, starts);
    }

    /** The trigger of a worker (gw_handle_trigger_exts_wkr): paused processes whose time has come run
        again, and nothing else changes. */
    method EnableAll(now: int)
      requires Valid()
      modifies `heap, `active
      ensures Valid() && Swept(old(heap), heap, live, |live|, PauseFor(now)) && AllEnabled(old(heap), heap, live, now)
    {
      hide Good, Chain, Swept;
      FirstOf(Now());
      ghost var f := PauseFor(now);
      NotSwept(heap, live, f);
      var p := first;
      ghost var i := 0;
      while p != 0
        invariant Sound({}) && i <= |live| && p == At(live, i) && Swept(old(heap), heap, live, i, f)
        decreases |live| - i
      {
        LiveAt(Now(), {}, i);
        AllDistinct(Now());
        SweptStep(old(heap), heap, live, i, f);
        assert heap == heap[p := heap[p]];
        if heap[p].state.Overloaded? { CheckEnable(p, now); }
        LiveAt(Now(), {}, i);
        p := heap[p].next;
        i := i + 1;
      }
      EndOf(Now(), i);
      SweptEnables(old(heap), heap, live, now);
    }

    /** gw_proc_waitpid for every process of a list. */
    method ReapList(fromLive: bool, now: int, exited: map<nat, bool>)
      requires Valid()
      modifies `heap, `active
      ensures Valid()
      ensures var l := if fromLive then live else idle;
        Swept(old(heap), heap, l, |l|, WaitFor(now, exited)) && AllReaped(old(heap), heap, l, now, exited)
    {
      hide Good, Chain, Swept, AfterWait, AllReaped;
      FirstOf(Now());
      ghost var f := WaitFor(now, exited);
      ghost var l := if fromLive then live else idle;
      NotSwept(heap, l, f);
      var p := if fromLive then first else unused;
      ghost var i := 0;
      while p != 0
        invariant Sound({}) && i <= |l| && p == At(l, i) && Swept(old(heap), heap, l, i, f)
        decreases |l| - i
      {
        if fromLive { LiveAt(Now(), {}, i); } else { IdleAt(Now(), {}, i); }
        AllDistinct(Now());
        SweptStep(old(heap), heap, l, i, f);
        var gone := WaitPid(p, now, Exits(exited, p), {});
        if fromLive { LiveAt(Now(), {}, i); } else { IdleAt(Now(), {}, i); }
        p := heap[p].next;
        i := i + 1;
      }
      if fromLive { EndOf(Now(), i); } else { EndOfIdle(Now(), i); }
      SweptReaps(old(heap), heap, l, now, exited);
    }

    /** Whether no process has room: the loads of all are above the limit. */
    method Overload() returns (overload: bool)
      requires Valid()
      ensures overload <==> AllBusy(heap, live, cfg.maxLoadPerProc)
    {
      hide Good, Chain;
      FirstOf(Now());
      var p := first;
      ghost var i := 0;
      while p != 0
        invariant i <= |live| && p == At(live, i)
        invariant forall k: nat :: k < i && live[k] in heap ==> heap[live[k]].load > cfg.maxLoadPerProc
        decreases |live| - i
      {
        LiveAt(Now(), {}, i);
        if heap[p].load <= cfg.maxLoadPerProc { return false; }
        p := heap[p].next;
        i := i + 1;
      }
      EndOf(Now(), i);
      return true;
    }

    /** The loop that ends one process that was idle too long, if there may be fewer: the first in
        the list. */
    method KillIdle(idleTimestamp: int) returns (killed: bool, ghost i: nat)
      requires Valid()
      modifies this
      ensures Valid() && contexts == old(contexts) && leaked == old(leaked) && load == old(load) && failures == old(failures)
      ensures killed <==> old(numProcs) > cfg.minProcs && i < |old(live)|
      ensures old(numProcs) > cfg.minProcs ==> forall k: nat :: k < i && k < |old(live)| ==> !Idles(old(heap), old(live), k, idleTimestamp)
      ensures killed ==> Idles(old(heap), old(live), i, idleTimestamp) && live == Removed(old(live), i) && idle == [old(live)[i]] + old(idle)
      ensures killed ==> numProcs == old(numProcs) - 1 && OthersSame(old(heap), heap, old(live)[i])
      ensures !killed ==> numProcs == old(numProcs) && heap == old(heap) && live == old(live) && idle == old(idle)
    {
      hide Good, Chain, OthersSame;
      FirstOf(Now());
      var p := first;
      i := 0;
      while p != 0
        invariant Valid() && i <= |live| && p == At(live, i) && heap == old(heap) && live == old(live) && idle == old(idle) && numProcs == old(numProcs)
        invariant contexts == old(contexts) && leaked == old(leaked) && load == old(load) && failures == old(failures)
        invariant forall k: nat :: k < i && k < |live| ==> !Idles(heap, live, k, idleTimestamp)
        decreases |live| - i
      {
        LiveAt(Now(), {}, i);
        if numProcs <= cfg.minProcs { return false, |live|; }
        if heap[p].load == 0 && heap[p].pid > 0 && heap[p].lastUsed < idleTimestamp {
          Kill(p, i);
          return true, i;
        }
        p := heap[p].next;
        i := i + 1;
      }
      EndOf(Now(), i);
      return false, i;
    }

    method SpawnOne(now: int, fresh_: nat, hasAddress: bool, s: Start) returns (ghost w: View, ghost r: Spawned, ghost p: nat, ghost i: nat)
      requires Valid() && numProcs < cfg.maxProcs && fresh_ != 0 && fresh_ !in heap && (s.Forked? ==> s.pid > 0)
      modifies this
      ensures Valid() && contexts == old(contexts) && leaked == old(leaked) && load == old(load)
      ensures w == Now() && SpawnOk(old(Now()), w, now, fresh_, hasAddress, s, r, p, i)
      ensures numProcs == old(numProcs) + if r.Started? || r.Failed? then 1 else 0
    {
      hide Good, OthersSame, Removed, FirstFree, Obtained, AfterStart, Data, Starts;
      r, p, i := Spawn(now, fresh_, hasAddress, s);
      w := Now();
    }

    method KillOne(since: int) returns (ghost w: View, killed: bool, ghost j: nat)
      requires Valid()
      modifies this
      ensures Valid() && contexts == old(contexts) && leaked == old(leaked) && load == old(load)
      ensures w == Now() && KillOk(old(Now()), w, since, old(numProcs) > cfg.minProcs, killed, j)
      ensures numProcs == old(numProcs) - if killed then 1 else 0
    {
      hide Good, OthersSame, Removed, Idles;
      killed, j := KillIdle(since);
      w := Now();
    }

    /** One process more is due: adaptive spawning is on, every process has too much load, and
        num_procs is neither 0 nor used up. */
    ghost predicate SpawnDue(v: View)
      reads `numProcs
    {
      cfg.local && cfg.minProcs != cfg.maxProcs && 0 < numProcs < cfg.maxProcs && AllBusy(v.heap, v.live, cfg.maxLoadPerProc)
    }

    /** gw_handle_trigger_host, once a second: children are reaped, dead processes started again, and
        with adaptive spawning one process is started if one is due, one that was idle too long is
        ended, and the children of the unused processes are reaped. In between, the processes are as
        in `reaped`, `mid`, `grown` and `shrunk`. */
    method Trigger(now: int, exited: map<nat, bool>, starts: map<nat, Start>, fresh_: nat, hasAddress: bool, s: Start)
      returns (ghost reaped: Heap, ghost mid: View, ghost grown: View, ghost shrunk: View,
               ghost spawned: Spawned, ghost p: nat, ghost i: nat, killed: bool, ghost j: nat)
      requires Valid() && forall q :: q in starts && starts[q].Forked? ==> starts[q].pid > 0
      requires fresh_ != 0 && fresh_ !in heap && (s.Forked? ==> s.pid > 0)
      modifies this
      ensures Valid() && contexts == old(contexts) && leaked == old(leaked) && load == old(load)
      ensures Swept(old(heap), reaped, old(live), |old(live)|, WaitFor(now, exited))
      ensures Swept(reaped, mid.heap, old(live), |old(live)|, TurnFor(cfg.local, now, exited, starts))
      ensures AllReaped(old(heap), reaped, old(live), now, exited) && AllTurned(reaped, mid.heap, old(live), cfg.local, now, exited, starts)
      ensures StayedAs(mid.heap, heap, old(live), live)
      ensures mid.live == old(live) && mid.idle == old(idle) && mid.maxId == old(maxId)
      ensures if old(SpawnDue(mid)) then SpawnOk(mid, grown, now, fresh_, hasAddress, s, spawned, p, i) else grown == mid && spawned.NotTried?
      ensures var procs := old(numProcs) + (if spawned.Started? || spawned.Failed? then 1 else 0);
        KillOk(grown, shrunk, now - cfg.idleTimeout, cfg.local && cfg.minProcs != cfg.maxProcs && procs > cfg.minProcs, killed, j)
      ensures live == shrunk.live && idle == shrunk.idle
      ensures if cfg.local && cfg.minProcs != cfg.maxProcs then Swept(shrunk.heap, heap, idle, |idle|, WaitFor(now, exited)) else heap == shrunk.heap
      ensures numProcs == old(numProcs) + (if spawned.Started? || spawned.Failed? then 1 else 0) - (if killed then 1 else 0)
    {
      hide Swept, AfterWait, AfterTurn, Good, AllBusy, SpawnOk, KillOk, AllReaped, AllTurned, StayedAs;
      spawned, p, i, killed := NotTried, 0, 0, false;
      ReapList(true, now, exited);
      reaped := heap;
      RestartDead(now, exited, starts);
      mid := Now();
      grown, shrunk, j := mid, mid, |live|;
      NoKill(mid, now - cfg.idleTimeout, j);
      NoneStays(mid);
      if cfg.minProcs == cfg.maxProcs { return; }
      if !cfg.local { return; }
      var overload := Overload();
      SweptKeys(old(heap), reaped, mid.heap, live, now, cfg.local, exited, starts);
      if overload && numProcs != 0 && numProcs < cfg.maxProcs {
        grown, spawned, p, i := SpawnOne(now, fresh_, hasAddress, s);
        SpawnStays(mid, grown, now, fresh_, hasAddress, s, spawned, p, i);
      }
      shrunk, killed, j := KillOne(now - cfg.idleTimeout);
      KillStays(grown, shrunk, now - cfg.idleTimeout, cfg.local && cfg.minProcs != cfg.maxProcs && old(numProcs) + (if spawned.Started? || spawned.Failed? then 1 else 0) > cfg.minProcs, killed, j);
      ReapList(false, now, exited);
      ReapStays(shrunk, heap, now, exited);
      StaysOn(mid.heap, grown.heap, shrunk.heap, heap, mid.live, grown.live, shrunk.live);
    }

    /** The end of gw_host_get for one host, when none is up: a local host that starts processes on
        demand and has none is given one. */
    method Demand(workers: nat, now: int, fresh_: nat, hasAddress: bool, s: Start) returns (tried: bool, ghost r: Spawned, ghost p: nat, ghost i: nat)
      requires Valid() && fresh_ != 0 && fresh_ !in heap && (s.Forked? ==> s.pid > 0)
      modifies this
      ensures Valid() && contexts == old(contexts) && leaked == old(leaked) && load == old(load)
      ensures tried <==> workers == 0 && cfg.local && cfg.minProcs == 0 && old(numProcs) == 0
      ensures if tried then SpawnOk(old(Now()), Now(), now, fresh_, hasAddress, s, r, p, i) else Now() == old(Now()) && r.NotTried?
      ensures numProcs == if r.Started? || r.Failed? then 1 else old(numProcs)
    {
      hide Good, SpawnOk;
      r, p, i := NotTried, 0, 0;
      tried := workers == 0 && cfg.minProcs == 0 && numProcs == 0 && cfg.local;
      if tried {
        ghost var w;
        w, r, p, i := SpawnOne(now, fresh_, hasAddress, s);
      }
    }

    // Requests.

    /** gw_host_assign, for a request that is not assigned here. */
    method Assign(c: nat)
      requires Valid() && c !in contexts
      modifies `load, `contexts
      ensures Valid() && contexts == old(contexts)[c := 0] && load == old(load) + 1
    {
      hide Good;
      AssignGood(Now(), c);
      contexts := contexts[c := 0];
      load := load + 1;
    }

    /** The choice of gw_write_request: the first of the running processes with the least load. */
    method Choose() returns (best: nat, ghost at: nat)
      requires Valid()
      ensures best == 0 ==> forall i: nat :: i < |live| && live[i] in heap ==> !heap[live[i]].state.Running?
      ensures best != 0 ==> at < |live| && best == live[at] && best in heap && heap[best].state.Running?
      ensures best != 0 ==> forall i: nat :: i < |live| && live[i] in heap && heap[live[i]].state.Running? ==>
        heap[best].load <= heap[live[i]].load && (i < at ==> heap[best].load < heap[live[i]].load)
    {
      hide Good, Chain;
      FirstOf(Now());
      best := 0;
      at := 0;
      var p := first;
      ghost var i := 0;
      while p != 0
        invariant i <= |live| && p == At(live, i)
        invariant best == 0 ==> forall k: nat :: k < i && live[k] in heap ==> !heap[live[k]].state.Running?
        invariant best != 0 ==> at < i && best == live[at] && best in heap && heap[best].state.Running?
        invariant best != 0 ==> forall k: nat :: k < i && live[k] in heap && heap[live[k]].state.Running? ==>
          heap[best].load <= heap[live[k]].load && (k < at ==> heap[best].load < heap[live[k]].load)
        decreases |live| - i
      {
        LiveAt(Now(), {}, i);
        if heap[p].state.Running? && (best == 0 || heap[p].load < heap[best].load) {
          best := p;
          at := i;
        }
        p := heap[p].next;
        i := i + 1;
      }
      EndOf(Now(), i);
    }

    /** The start of gw_write_request: the request forgets a process it has and takes the running one
        with the least load. A request that had one, which only happens after waiting for a file
        descriptor, leaks one load on it. */
    method InitRequest(c: nat) returns (ok: bool)
      requires Valid() && c in contexts
      modifies `heap, `contexts, `leaked
      ensures Valid() && load == old(load) && contexts.Keys == old(contexts).Keys
      ensures var p := old(contexts)[c]; leaked == if p == 0 then old(leaked) else old(leaked)[p := Leak(old(leaked), p) + 1]
      ensures ok <==> exists i: nat :: i < |live| && live[i] in old(heap) && old(heap)[live[i]].state.Running?
      ensures !ok ==> heap == old(heap) && contexts == old(contexts)[c := 0]
      ensures ok ==> var p := contexts[c];
        && p in live && p in old(heap) && old(heap)[p].state.Running? && contexts == old(contexts)[c := p]
        && heap == old(heap)[p := old(heap)[p].(load := old(heap)[p].load + 1)]
        && forall q :: q in live && q in old(heap) && old(heap)[q].state.Running? ==> old(heap)[p].load <= old(heap)[q].load
    {
      hide Good;
      if contexts[c] != 0 {
        ForgetGood(Now(), c);
        leaked := leaked[contexts[c] := Leak(leaked, contexts[c]) + 1];
        contexts := contexts[c := 0];
      }
      assert contexts == old(contexts)[c := 0];
      var p, at := Choose();
      if p == 0 { return false; }
      assert live[at] in live;
      BindGood(Now(), c, p);
      heap := heap[p := heap[p].(load := heap[p].load + 1)];
      contexts := contexts[c := p];
      return true;
    }

    /** gw_backend_close: the request gives back its process and leaves the host. */
    method Close(c: nat)
      requires Valid() && c in contexts
      modifies `heap, `contexts, `load
      ensures Valid() && contexts == old(contexts) - {c} && load == old(load) - 1
      ensures var p := old(contexts)[c];
        if p == 0 then heap == old(heap)
        else p in old(heap) && old(heap)[p].load > 0 && heap == old(heap)[p := old(heap)[p].(load := old(heap)[p].load - 1)]
    {
      hide Good;
      var p := contexts[c];
      if p != 0 {
        BoundHasLoad(Now(), c);
        ReleaseGood(Now(), c);
        heap := heap[p := heap[p].(load := heap[p].load - 1)];
        contexts := contexts[c := 0];
      }
      LeaveGood(Now(), c);
      load := load - 1;
      contexts := contexts - {c};
    }

    /** gw_handle_waitpid_cb, when the child pid has exited: its process is dead, and started again if
        it is listed. Nothing happens if no process of this host has that child. */
    method ChildExited(pid: int, now: int, s: Start) returns (handled: bool, ghost p: nat)
      requires Valid() && (s.Forked? ==> s.pid > 0)
      modifies `heap, `active
      ensures Valid()
      ensures !handled ==> heap == old(heap) && forall q :: q in heap ==> !IsChild(heap, q, pid)
      ensures handled && p in live ==> p in old(heap) && p in heap && ExitedTo(old(heap)[p], heap[p], now, s)
      ensures handled ==> IsChild(old(heap), p, pid) && heap == old(heap)[p :=
          if p in live then AfterExit(old(heap)[p], now, s)
          else old(heap)[p].(pid := 0, state := Died, disabledUntil := if old(heap)[p].state.Killed? then old(heap)[p].disabledUntil else now)]
    {
      hide Good, Chain, AfterExit, ExitedTo;
      FirstOf(Now());
      var q := first;
      ghost var i := 0;
      while q != 0
        invariant Sound({}) && i <= |live| && q == At(live, i) && heap == old(heap)
        invariant forall k: nat :: k < i ==> !IsChild(heap, live[k], pid)
        decreases |live| - i
      {
        LiveAt(Now(), {}, i);
        if heap[q].isLocal && heap[q].pid == pid {
          Reaped(q, now, s);
          return true, q;
        }
        q := heap[q].next;
        i := i + 1;
      }
      EndOf(Now(), i);
      q := unused;
      i := 0;
      while q != 0
        invariant Sound({}) && i <= |idle| && q == At(idle, i) && heap == old(heap)
        invariant forall k: nat :: k < i ==> !IsChild(heap, idle[k], pid)
        decreases |idle| - i
      {
        IdleAt(Now(), {}, i);
        if heap[q].isLocal && heap[q].pid == pid {
          if !heap[q].state.Killed? { Note(q, heap[q].(disabledUntil := now), {}); }
          SetState(q, Died, {});
          Note(q, heap[q].(pid := 0), {});
          InIdle(Now(), i);
          return true, q;
        }
        q := heap[q].next;
        i := i + 1;
      }
      EndOfIdle(Now(), i);
      Nobody(Now(), pid);
      return false, 0;
    }

    /** A listed process whose child exited: started again, unless that was too soon after the last
        time. */
    method Reaped(p: nat, now: int, s: Start)
      requires Sound({}) && p in heap && p !in idle && (s.Forked? ==> s.pid > 0)
      modifies `heap, `active
      ensures Sound({}) && heap == old(heap)[p := AfterExit(old(heap)[p], now, s)] && ExitedTo(old(heap)[p], heap[p], now, s)
    {
      hide Good, Host.Sound, Host.Now, AfterStart, ExitedTo;
      ExitIs(heap[p], now, s);
      SetState(p, Died, {});
      Note(p, heap[p].(pid := 0), {});
      if heap[p].disabledUntil < now {
        if !heap[p].state.Killed? { Note(p, heap[p].(disabledUntil := now), {}); }
        var ok := SpawnConnection(p, now, s, {});
      }
    }
  }

  /** The k-th process the server starts with. */
  function Begun(k: nat, now: int, preflight: bool, s: Start): Proc {
    if preflight then NewProc(k) else AfterStart(NewProc(k), now, s)
  }

  /** Exactly the first n of the given processes are there, the last one in front. */
  ghost predicate AllBegun(heap: Heap, live: seq<nat>, fresh_: seq<nat>, n: nat, now: int, preflight: bool, starts: seq<Start>) {
    && |live| == n <= |fresh_| == |starts|
    && (forall p :: p in heap <==> p in fresh_[..n])
    && forall k :: 0 <= k < n ==> live[n - 1 - k] == fresh_[k] && fresh_[k] in heap && Data(heap[fresh_[k]]) == Data(Begun(k, now, preflight, starts[k]))
  }

  lemma NoneBegun(heap: Heap, live: seq<nat>, fresh_: seq<nat>, now: int, preflight: bool, starts: seq<Start>)
    requires heap == map[] && live == [] && |fresh_| == |starts|
    ensures AllBegun(heap, live, fresh_, 0, now, preflight, starts)
  {
  }

  lemma NotBegun(heap: Heap, live: seq<nat>, fresh_: seq<nat>, n: nat, now: int, preflight: bool, starts: seq<Start>)
    requires AllBegun(heap, live, fresh_, n, now, preflight, starts) && n < |fresh_| && NoDups(fresh_)
    ensures fresh_[n] !in heap && starts[n] in starts && fresh_[n] in fresh_
  {
  }

  lemma OneMoreBegun(before: Heap, list: seq<nat>, heap: Heap, live: seq<nat>, fresh_: seq<nat>, n: nat, now: int, preflight: bool, starts: seq<Start>)
    requires AllBegun(before, list, fresh_, n, now, preflight, starts) && n < |fresh_| && NoDups(fresh_)
    requires live == [fresh_[n]] + list && heap.Keys == before.Keys + {fresh_[n]} && OthersSame(before, heap, fresh_[n])
    requires Data(heap[fresh_[n]]) == Data(Begun(n, now, preflight, starts[n]))
    ensures AllBegun(heap, live, fresh_, n + 1, now, preflight, starts)
  {
    hide Data, Begun;
    assert fresh_[..n + 1] == fresh_[..n] + [fresh_[n]];
  }

  lemma KeptBegun(before: Heap, begun: Heap, later: Heap, p: nat)
    requires p !in before && begun.Keys == before.Keys + {p} && SameBut(begun, later)
    requires forall q :: q in before ==> begun[q] == before[q]
    ensures later.Keys == before.Keys + {p} && Data(later[p]) == Data(begun[p]) && OthersSame(before, later, p)
  {
  }

  lemma RemoteGood(v: View, p: nat)
    requires p != 0 && v.heap == map[p := NewProc(0).(state := Running)] && v.first == p && v.unused == 0 && v.active == 1
    requires v.maxId == 1 && v.load == 0 && v.contexts == map[] && v.live == [p] && v.idle == [] && v.leaked == map[]
    ensures Good(v, {})
  {
    assert RunningIn(v.heap) == {p};
    forall q: nat | q != 0
      ensures LoadAt(v.heap, v.contexts, v.leaked, q)
    {
      assert BoundTo(v.contexts, q) == {};
    }
  }

  lemma EmptyGood(v: View)
    requires v.heap == map[] && v.first == 0 && v.unused == 0 && v.active == 0
    requires v.load == 0 && v.contexts == map[] && v.live == [] && v.idle == [] && v.leaked == map[]
    ensures Good(v, {})
  {
    assert RunningIn(v.heap) == {};
    forall q: nat | q != 0
      ensures LoadAt(v.heap, v.contexts, v.leaked, q)
    {
      assert BoundTo(v.contexts, q) == {};
    }
  }

  /** Processes in the unused list do not run. */
  lemma RestOf(v: View, pending: set<nat>)
    requires Good(v, pending)
    ensures Resting(v.heap, v.idle)
  {
  }

  /** Position i is the first of the unused processes without a child. */
  ghost predicate FirstFree(heap: Heap, idle: seq<nat>, i: nat) {
    && i <= |idle| && (forall k: nat :: k < i && idle[k] in heap ==> heap[idle[k]].pid > 0)
    && (i < |idle| ==> idle[i] in heap && heap[idle[i]].pid <= 0)
  }

  /** The process to start, out of its list, or a new one. */
  ghost function Obtained(heap: Heap, idle: seq<nat>, maxId: int, i: nat): Proc
    requires i < |idle| ==> idle[i] in heap
    requires maxId >= 0
  {
    if i < |idle| then heap[idle[i]].(prev := 0, next := 0) else NewProc(maxId)
  }

  /** All processes but p are as they were, except for their links. */
  ghost predicate OthersSame(heap: Heap, later: Heap, p: nat) {
    forall q :: q != p ==> (q in later <==> q in heap) && (q in heap ==> Data(later[q]) == Data(heap[q]))
  }

  lemma SameButPut(heap: Heap, later: Heap, p: nat, r: Proc)
    requires SameBut(heap, later) && p in heap && Data(r) == Data(heap[p])
    ensures p in later && SameBut(heap, later[p := r])
  {
  }

  lemma SameIsOthers(heap: Heap, later: Heap, p: nat)
    requires SameBut(heap, later)
    ensures OthersSame(heap, later, p)
  {
  }

  lemma DataSame(heap: Heap, later: Heap, p: nat)
    requires SameBut(heap, later) && p in heap
    ensures p in later && Data(later[p]) == Data(heap[p])
  {
  }

  lemma OthersThen(heap: Heap, mid: Heap, later: Heap, p: nat, r: Proc)
    requires OthersSame(heap, mid, p)
    requires later == mid - {p} || (p in mid && SameBut(mid[p := r], later))
    ensures OthersSame(heap, later, p)
  {
  }

  lemma FirstOf(v: View)
    requires Good(v, {})
    ensures v.unused == At(v.idle, 0) && v.first == At(v.live, 0)
  {
  }

  lemma IdleAt(v: View, pending: set<nat>, i: nat)
    requires Good(v, pending) && i <= |v.idle| && At(v.idle, i) != 0
    ensures i < |v.idle| && v.idle[i] in v.heap && v.heap[v.idle[i]].next == At(v.idle, i + 1)
  {
    Neighbours(v.heap, v.unused, v.idle, i);
  }

  lemma LiveAt(v: View, pending: set<nat>, i: nat)
    requires Good(v, pending) && i <= |v.live| && At(v.live, i) != 0
    ensures i < |v.live| && v.live[i] in v.heap && v.heap[v.live[i]].next == At(v.live, i + 1) && v.live[i] !in v.idle
  {
    Neighbours(v.heap, v.first, v.live, i);
    PartitionOf(v, pending);
    assert v.live[i] in v.live;
  }

  /** Unlinking step by step, with the links of the process itself cleared. */
  lemma SameUnlink(v: View, i: nat, p: nat, unlinked: Heap, later: Heap)
    requires Good(v, {}) && i < |v.idle| && p == v.idle[i] && Closed(v.heap, p)
    requires unlinked == Unlinked(v.heap, p)
    requires var next, prev := v.heap[p].next, v.heap[p].prev;
      && var h := if p == v.unused then v.heap else if prev in v.heap then v.heap[prev := v.heap[prev].(next := next)] else v.heap;
         var h2 := if next != 0 && next in h && p in h then h[next := h[next].(prev := h[p].prev)] else h;
         p in h2 && later == h2[p := h2[p].(next := 0, prev := 0)]
    ensures p in unlinked && later == unlinked[p := later[p]] && later[p] == v.heap[p].(next := 0, prev := 0)
    ensures unlinked[p].id == v.heap[p].id && unlinked[p].load == v.heap[p].load && unlinked[p].state == v.heap[p].state
    ensures SameBut(v.heap, later)
  {
    hide SameBut, Chain;
    UnlinkedSame(v.heap, p);
    SameFields(v.heap, unlinked);
    SameButPut(v.heap, unlinked, p, v.heap[p].(next := 0, prev := 0));
    AllDistinct(v);
    Neighbours(v.heap, v.unused, v.idle, i);
    assert i > 0 ==> v.idle[i - 1] != p;
    assert i + 1 < |v.idle| ==> v.idle[i + 1] != p;
  }

  lemma PendingOut(v: View, p: nat)
    requires Good(v, {p})
    ensures p !in v.idle && p !in v.live && (p in v.heap ==> p != 0)
  {
  }

  lemma HeadElsewhere(v: View, p: nat)
    requires Good(v, {p}) && p != 0
    ensures v.first != p && v.unused != p
  {
    PendingOut(v, p);
    HeadIn(v.heap, v.first, v.live);
    HeadIn(v.heap, v.unused, v.idle);
  }

  lemma SameKill(v: View, i: nat, p: nat, unlinked: Heap, later: Heap)
    requires Good(v, {}) && i < |v.live| && p == v.live[i] && Closed(v.heap, p)
    requires unlinked == Unlinked(v.heap, p) && p in unlinked && later == unlinked[p := unlinked[p].(prev := 0)]
    ensures later[p] == v.heap[p].(prev := 0) && SameBut(v.heap, later)
    ensures unlinked[p].id == v.heap[p].id && unlinked[p].load == v.heap[p].load && unlinked[p].state == v.heap[p].state
  {
    UnlinkedSame(v.heap, p);
    SameFields(v.heap, unlinked);
    Neighbours(v.heap, v.first, v.live, i);
    assert i > 0 ==> v.live[i - 1] != p;
    assert i + 1 < |v.live| ==> v.live[i + 1] != p;
  }

  lemma EndOfIdle(v: View, i: nat)
    requires Good(v, {}) && At(v.idle, i) == 0
    ensures i >= |v.idle|
  {
    assert forall k: nat :: k < |v.idle| ==> v.idle[k] in v.idle;
  }

  /** The links end where the list does. */
  lemma EndOf(v: View, i: nat)
    requires Good(v, {}) && At(v.live, i) == 0
    ensures i >= |v.live|
  {
    assert forall k: nat :: k < |v.live| ==> v.live[k] in v.live;
  }

  lemma AllDistinct(v: View)
    requires Good(v, {})
    ensures NoDups(v.live) && NoDups(v.idle)
  {
  }

  lemma InIdle(v: View, i: nat)
    requires Good(v, {}) && i < |v.idle|
    ensures v.idle[i] !in v.live
  {
    PartitionOf(v, {});
    assert v.idle[i] in v.idle;
  }

  /** Every process is in a list. */
  lemma Nobody(v: View, pid: int)
    requires Good(v, {})
    requires forall k: nat :: k < |v.live| ==> !IsChild(v.heap, v.live[k], pid)
    requires forall k: nat :: k < |v.idle| ==> !IsChild(v.heap, v.idle[k], pid)
    ensures forall q :: q in v.heap ==> !IsChild(v.heap, q, pid)
  {
    hide Chain;
    PartitionOf(v, {});
    forall q | q in v.heap
      ensures !IsChild(v.heap, q, pid)
    {
      assert q in v.live || q in v.idle;
    }
  }

  lemma RemovedSize(l: seq<nat>, i: nat)
    requires i < |l|
    ensures |Removed(l, i)| == |l| - 1
  {
  }
}
