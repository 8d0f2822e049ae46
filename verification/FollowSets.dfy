/** FindFollowSets (src/lemon.c): propagation of lookaheads along forward links, with the
    COMPLETE/INCOMPLETE marks that avoid revisiting settled configurations. */
module FollowSets {

  type Sets<!N> = map<N, set<nat>>

  /** q can be reached from p along n forward links. */
  ghost predicate ReachesIn<N(!new)>(fplp: map<N, seq<N>>, p: N, q: N, n: nat)
    decreases n
  {
    if n == 0 then p == q
    else p in fplp && exists r :: r in fplp[p] && ReachesIn(fplp, r, q, n - 1)
  }

  ghost predicate Reaches<N(!new)>(fplp: map<N, seq<N>>, p: N, q: N) {
    exists n: nat :: ReachesIn(fplp, p, q, n)
  }

  /** Some node seeded with t reaches p. */
  ghost predicate Flows<N(!new)>(fplp: map<N, seq<N>>, seeds: Sets<N>, p: N, t: nat) {
    exists s :: s in seeds && t in seeds[s] && Reaches(fplp, s, p)
  }

  ghost predicate LinksInside<N(!new)>(fplp: map<N, seq<N>>) {
    forall p, k :: p in fplp && 0 <= k < |fplp[p]| ==> fplp[p][k] in fplp
  }

  /** Everything at p has been handed on along all its links. */
  ghost predicate Settled<N(!new)>(fplp: map<N, seq<N>>, fws: Sets<N>, p: N)
    requires fws.Keys == fplp.Keys && LinksInside(fplp) && p in fplp
  {
    forall k :: 0 <= k < |fplp[p]| ==> fws[p] <= fws[fplp[p][k]]
  }

  ghost predicate Sound<N(!new)>(fplp: map<N, seq<N>>, seeds: Sets<N>, fws: Sets<N>) {
    forall p, t :: p in fws && t in fws[p] ==> Flows(fplp, seeds, p, t)
  }

  ghost predicate Extends<N(!new)>(seeds: Sets<N>, fws: Sets<N>) {
    seeds.Keys == fws.Keys && forall p :: p in seeds ==> seeds[p] <= fws[p]
  }

  ghost function Missing<N>(fws: Sets<N>, n: nat): set<(N, nat)> {
    set p, t: nat | p in fws && t < n && t !in fws[p] :: (p, t)
  }

  lemma {:induction false} ReachesInOneMore<N(!new)>(fplp: map<N, seq<N>>, p: N, q: N, r: N, n: nat)
    requires ReachesIn(fplp, p, q, n) && q in fplp && r in fplp[q]
    ensures ReachesIn(fplp, p, r, n + 1)
    decreases n
  {
    if n == 0 {
      assert ReachesIn(fplp, r, r, 0);
    } else {
      var x :| x in fplp[p] && ReachesIn(fplp, x, q, n - 1);
      ReachesInOneMore(fplp, x, q, r, n - 1);
    }
  }

  lemma FlowsOn<N(!new)>(fplp: map<N, seq<N>>, seeds: Sets<N>, p: N, q: N, t: nat)
    requires Flows(fplp, seeds, p, t) && p in fplp && q in fplp[p]
    ensures Flows(fplp, seeds, q, t)
  {
    var s :| s in seeds && t in seeds[s] && Reaches(fplp, s, p);
    var n: nat :| ReachesIn(fplp, s, p, n);
    ReachesInOneMore(fplp, s, p, q, n);
  }

  /** Where every node is settled, sets grow along paths. */
  lemma {:induction false} SettledAlongPath<N(!new)>(fplp: map<N, seq<N>>, fws: Sets<N>, p: N, q: N, n: nat)
    requires fws.Keys == fplp.Keys && LinksInside(fplp)
    requires forall x :: x in fplp ==> Settled(fplp, fws, x)
    requires p in fplp && ReachesIn(fplp, p, q, n)
    ensures q in fplp && fws[p] <= fws[q]
    decreases n
  {
    if n > 0 {
      var x :| x in fplp[p] && ReachesIn(fplp, x, q, n - 1);
      var k :| 0 <= k < |fplp[p]| && fplp[p][k] == x;
      assert Settled(fplp, fws, p);
      SettledAlongPath(fplp, fws, x, q, n - 1);
    }
  }

  /** Sound and settled means least solution. */
  lemma SettledIsExact<N(!new)>(fplp: map<N, seq<N>>, seeds: Sets<N>, fws: Sets<N>)
    requires fws.Keys == fplp.Keys && LinksInside(fplp)
    requires Extends(seeds, fws) && Sound(fplp, seeds, fws)
    requires forall x :: x in fplp ==> Settled(fplp, fws, x)
    ensures forall p, t :: p in fws ==> (t in fws[p] <==> Flows(fplp, seeds, p, t))
  {
    forall p, t | p in fws && Flows(fplp, seeds, p, t)
      ensures t in fws[p]
    {
      var s :| s in seeds && t in seeds[s] && Reaches(fplp, s, p);
      var n: nat :| ReachesIn(fplp, s, p, n);
      SettledAlongPath(fplp, fws, s, p, n);
    }
  }

  /** The marks never lie. */
  ghost predicate MarksOk<N(!new)>(fplp: map<N, seq<N>>, fws: Sets<N>, complete: map<N, bool>)
    requires fws.Keys == fplp.Keys && LinksInside(fplp)
  {
    complete.Keys == fplp.Keys && forall p :: p in complete && complete[p] ==> Settled(fplp, fws, p)
  }

  ghost predicate Bounded<N(!new)>(fws: Sets<N>, nterminal: nat) {
    forall p, t :: p in fws && t in fws[p] ==> t < nterminal
  }

  /** The state of the computation between two visits. */
  ghost predicate Running<N(!new)>(fplp: map<N, seq<N>>, seeds: Sets<N>, fws: Sets<N>, complete: map<N, bool>, nterminal: nat)
    requires LinksInside(fplp)
  {
    && fws.Keys == fplp.Keys && Extends(seeds, fws)
    && Sound(fplp, seeds, fws) && Bounded(fws, nterminal)
    && MarksOk(fplp, fws, complete)
  }

  /** Uniting into q: still sound; every mark but q's is kept. */
  lemma UnionStep<N(!new)>(fplp: map<N, seq<N>>, seeds: Sets<N>, fws: Sets<N>, complete: map<N, bool>, nterminal: nat, p: N, k: nat)
    requires LinksInside(fplp) && Running(fplp, seeds, fws, complete, nterminal)
    requires p in fplp && k < |fplp[p]|
    ensures var q := fplp[p][k];
            var fws' := fws[q := fws[q] + fws[p]];
            if fws[p] <= fws[q] then fws' == fws
            else Running(fplp, seeds, fws', complete[q := false], nterminal) && Missing(fws', nterminal) < Missing(fws, nterminal)
                 && p != q && fws'[p] == fws[p]
  {
    hide Missing, Sound, MarksOk;
    var q := fplp[p][k];
    var fws' := fws[q := fws[q] + fws[p]];
    if fws[p] <= fws[q] {
      assert fws[q] + fws[p] == fws[q];
    } else {
      UnionSound(fplp, seeds, fws, p, q);
      UnionMarks(fplp, fws, complete, q, fws[q] + fws[p]);
      MissingShrinks(fws, q, fws[p], nterminal);
      BoundedUnion(fws, q, fws[p], nterminal);
    }
  }

  lemma MissingShrinks<N(!new)>(fws: Sets<N>, q: N, more: set<nat>, n: nat)
    requires q in fws && !(more <= fws[q]) && forall t :: t in more ==> t < n
    ensures Missing(fws[q := fws[q] + more], n) < Missing(fws, n)
  {
    var t :| t in more && t !in fws[q];
    assert (q, t) in Missing(fws, n) && (q, t) !in Missing(fws[q := fws[q] + more], n);
  }

  lemma BoundedUnion<N(!new)>(fws: Sets<N>, q: N, more: set<nat>, n: nat)
    requires q in fws && Bounded(fws, n) && forall t :: t in more ==> t < n
    ensures Bounded(fws[q := fws[q] + more], n)
  {
  }

  lemma UnionSound<N(!new)>(fplp: map<N, seq<N>>, seeds: Sets<N>, fws: Sets<N>, p: N, q: N)
    requires Sound(fplp, seeds, fws) && p in fplp && q in fplp[p] && p in fws && q in fws
    ensures Sound(fplp, seeds, fws[q := fws[q] + fws[p]])
  {
    hide Flows;
    forall t | t in fws[p]
      ensures Flows(fplp, seeds, q, t)
    {
      FlowsOn(fplp, seeds, p, q, t);
    }
  }

  lemma UnionMarks<N(!new)>(fplp: map<N, seq<N>>, fws: Sets<N>, complete: map<N, bool>, q: N, more: set<nat>)
    requires LinksInside(fplp) && fws.Keys == fplp.Keys && MarksOk(fplp, fws, complete) && q in fplp
    requires fws[q] <= more
    ensures MarksOk(fplp, fws[q := more], complete[q := false])
  {
    forall x | x in fplp && x != q && complete[x]
      ensures Settled(fplp, fws[q := more], x)
    {
      assert Settled(fplp, fws, x);
    }
  }

  /** The set of p has been united into exactly the sets of these nodes. */
  ghost predicate HandedOn<N(!new)>(fws0: Sets<N>, fws: Sets<N>, p: N, to: seq<N>)
    requires p in fws0
  {
    fws.Keys == fws0.Keys && forall q :: q in fws0 ==> fws[q] == fws0[q] + if q in to then fws0[p] else {}
  }

  /** Exactly the marks of nodes whose sets have grown are gone. */
  ghost predicate Remarked<N(!new)>(fws0: Sets<N>, fws: Sets<N>, complete0: map<N, bool>, complete: map<N, bool>) {
    complete.Keys == complete0.Keys == fws0.Keys == fws.Keys && forall q :: q in fws0 ==> complete[q] == (complete0[q] && fws[q] == fws0[q])
  }

  lemma NoneHandedOn<N(!new)>(fws0: Sets<N>, complete0: map<N, bool>, p: N)
    requires p in fws0 && complete0.Keys == fws0.Keys
    ensures HandedOn(fws0, fws0, p, []) && Remarked(fws0, fws0, complete0, complete0)
    ensures forall to: seq<N> :: to[..0] == []
  {
  }

  lemma HandOn<N(!new)>(fws0: Sets<N>, fws: Sets<N>, complete0: map<N, bool>, complete: map<N, bool>, p: N, to: seq<N>, k: nat)
    requires p in fws0 && k < |to| && to[k] in fws0 && HandedOn(fws0, fws, p, to[..k]) && Remarked(fws0, fws, complete0, complete)
    requires fws[p] == fws0[p]
    ensures var q := to[k];
      if fws[p] <= fws[q] then HandedOn(fws0, fws, p, to[..k + 1])
      else HandedOn(fws0, fws[q := fws[q] + fws[p]], p, to[..k + 1]) && Remarked(fws0, fws[q := fws[q] + fws[p]], complete0, complete[q := false])
  {
    assert to[..k + 1] == to[..k] + [to[k]];
  }

  lemma MarkedAgain<N(!new)>(fws0: Sets<N>, fws: Sets<N>, complete0: map<N, bool>, complete: map<N, bool>, p: N)
    requires Remarked(fws0, fws, complete0, complete) && p in fws0 && fws[p] == fws0[p]
    ensures complete[p := true][p := complete0[p]] == complete
  {
  }

  /** Visiting p: hands its set on along every link, marks p complete, and marks whatever
      changed incomplete again. */
  method Visit<N(!new, ==)>(fplp: map<N, seq<N>>, ghost seeds: Sets<N>, fws0: Sets<N>, complete0: map<N, bool>,
                            ghost nterminal: nat, p: N)
    returns (fws: Sets<N>, complete: map<N, bool>, change: bool)
    requires LinksInside(fplp) && Running(fplp, seeds, fws0, complete0, nterminal) && p in fplp
    ensures Running(fplp, seeds, fws, complete, nterminal) && complete[p]
    ensures p in fws0 && p in complete0 && HandedOn(fws0, fws, p, fplp[p]) && Remarked(fws0, fws, complete0, complete[p := complete0[p]])
    ensures !change ==> fws == fws0 && complete == complete0[p := true]
    ensures change ==> Missing(fws, nterminal) < Missing(fws0, nterminal)
  {
    hide Sound, Flows, Missing, HandedOn, Remarked;
    fws, complete, change := fws0, complete0, false;
    NoneHandedOn(fws0, complete0, p);
    for k := 0 to |fplp[p]|
      invariant Running(fplp, seeds, fws, complete, nterminal)
      invariant forall j :: 0 <= j < k ==> fws[p] <= fws[fplp[p][j]]
      invariant fws[p] == fws0[p] && HandedOn(fws0, fws, p, fplp[p][..k]) && Remarked(fws0, fws, complete0, complete)
      invariant !change ==> fws == fws0 && complete == complete0
      invariant change ==> Missing(fws, nterminal) < Missing(fws0, nterminal)
    {
      var q := fplp[p][k];
      assert q in fplp;
      HandOn(fws0, fws, complete0, complete, p, fplp[p], k);
      UnionStep(fplp, seeds, fws, complete, nterminal, p, k);
      if !(fws[p] <= fws[q]) {
        fws := fws[q := fws[q] + fws[p]];
        complete := complete[q := false];
        change := true;
      }
    }
    assert fplp[p][..|fplp[p]|] == fplp[p];
    MarkedAgain(fws0, fws, complete0, complete, p);
    complete := complete[p := true];
  }

  /** FindFollowSets: the least solution. t ends up at p exactly if some configuration seeded
      with t reaches p. */
  method Propagate<N(!new, ==)>(order: seq<N>, fplp: map<N, seq<N>>, seeds: Sets<N>, nterminal: nat) returns (fws: Sets<N>)
    requires LinksInside(fplp) && seeds.Keys == fplp.Keys && Bounded(seeds, nterminal)
    requires forall p :: p in fplp <==> p in order
    ensures fws.Keys == fplp.Keys
    ensures forall p, t :: p in fws ==> (t in fws[p] <==> Flows(fplp, seeds, p, t))
  {
    hide Flows, Missing;
    fws := seeds;
    var complete := map p | p in fplp :: false;
    SeedsAreSound(fplp, seeds);
    var progress := true;
    while progress
      invariant Running(fplp, seeds, fws, complete, nterminal)
      invariant !progress ==> forall p :: p in order ==> complete[p]
      decreases Missing(fws, nterminal), progress
    {
      progress := false;
      ghost var before := fws;
      for i := 0 to |order|
        invariant Running(fplp, seeds, fws, complete, nterminal)
        invariant progress ==> Missing(fws, nterminal) < Missing(before, nterminal)
        invariant !progress ==> fws == before && forall j :: 0 <= j < i ==> complete[order[j]]
      {
        assert order[i] in order;
        if !complete[order[i]] {
          var change;
          fws, complete, change := Visit(fplp, seeds, fws, complete, nterminal, order[i]);
          if change { progress := true; }
        }
      }
    }
    SettledIsExact(fplp, seeds, fws);
  }

  lemma SeedsAreSound<N(!new)>(fplp: map<N, seq<N>>, seeds: Sets<N>)
    ensures Sound(fplp, seeds, seeds) && Extends(seeds, seeds)
  {
    forall p, t | p in seeds && t in seeds[p]
      ensures Flows(fplp, seeds, p, t)
    {
      assert ReachesIn(fplp, p, p, 0);
    }
  }
}
