/** Construction of the LR(0) automaton (src/lemon.c: FindStates, getstate, buildshifts), with
    the lookahead seeds and propagation links that are recorded on the way. */
module Lr0 {
  import opened Grammar
  import opened FirstSets
  import opened Configs

  datatype Shift = Shift(sp: Symbol, target: nat)

  /** A state: its sorted basis, its sorted closure, and its shift actions, newest first. */
  datatype State = State(basis: seq<Config>, configs: seq<Config>, shifts: seq<Shift>)

  /** A configuration in a state. */
  type Place = (nat, Config)

  // ---- What a correct automaton is ----

  ghost predicate StateOk(g: Grammar, st: State) {
    && Increasing(st.basis) && Increasing(st.configs)
    && Elements(st.configs) <= AllConfigs(g)
    && IsClosureOf(g, Elements(st.basis), Elements(st.configs))
  }

  /** The items advanced over x. */
  ghost function GotoSet(g: Grammar, items: set<Config>, x: Symbol): set<Config> {
    set c | c in items && NextIs(g, c, x) :: Advance(c)
  }

  predicate HasShift(st: State, x: Symbol) {
    exists k :: 0 <= k < |st.shifts| && st.shifts[k].sp == x
  }

  /** Each shift leads to the state whose basis is exactly the advanced items. */
  ghost predicate ShiftsOk(g: Grammar, states: seq<State>, s: nat)
    requires s < |states|
  {
    && (forall k :: 0 <= k < |states[s].shifts| ==>
          var sh := states[s].shifts[k];
          && sh.target < |states|
          && GotoSet(g, Elements(states[s].configs), sh.sp) != {}
          && Elements(states[sh.target].basis) == GotoSet(g, Elements(states[s].configs), sh.sp))
    && (forall j, k :: 0 <= j < k < |states[s].shifts| ==> states[s].shifts[j].sp != states[s].shifts[k].sp)
  }

  /** ... and there is a shift for every symbol after a dot. */
  ghost predicate Complete(g: Grammar, states: seq<State>, s: nat)
    requires s < |states|
  {
    && ShiftsOk(g, states, s)
    && forall c, x :: c in states[s].configs && NextIs(g, c, x) ==> HasShift(states[s], x)
  }

  ghost predicate DistinctBases(states: seq<State>) {
    forall i, j :: 0 <= i < j < |states| ==> Elements(states[i].basis) != Elements(states[j].basis)
  }

  /** State j is the target of a shift from an earlier state, not before lo. */
  ghost predicate HasParent(states: seq<State>, j: nat, lo: nat) {
    exists p, sh :: lo <= p < j && p < |states| && sh in states[p].shifts && sh.target == j
  }

  ghost function StartBasis(g: Grammar): set<Config> {
    set r: nat | r < |g.rules| && g.rules[r].lhs == g.start :: Config(r, 0)
  }

  /** The LR(0) automaton of g: states in bijection with the reachable item sets. */
  ghost predicate IsLr0(g: Grammar, states: seq<State>) {
    && states != [] && Elements(states[0].basis) == StartBasis(g)
    && (forall s :: 0 <= s < |states| ==> StateOk(g, states[s]) && Complete(g, states, s))
    && DistinctBases(states)
    && (forall s :: 0 < s < |states| ==> HasParent(states, s, 0))
  }

  // ---- Lookahead seeds and propagation links ----

  /** Lookahead t arises at c in state s: the end marker at the start, or generated by the closure. */
  ghost predicate IsSeed(g: Grammar, lambda: seq<bool>, first: seq<set<Symbol>>, states: seq<State>, s: nat, c: Config, t: Symbol)
    requires |lambda| == |first| == g.nsymbol && s < |states|
  {
    || (s == 0 && c in states[0].basis && t == 0)
    || exists d :: d in states[s].configs && t in Sends(g, lambda, first, d, c)
  }

  ghost predicate SeedsOk(g: Grammar, lambda: seq<bool>, first: seq<set<Symbol>>, states: seq<State>, fws: map<Place, set<Symbol>>)
    requires |lambda| == |first| == g.nsymbol
  {
    forall s, c :: 0 <= s < |states| && c in states[s].configs ==>
      (s, c) in fws && forall t :: t in fws[(s, c)] <==> IsSeed(g, lambda, first, states, s, c, t)
  }

  /** Within a state, from a configuration to what it predicts with nothing certain after it. */
  ghost predicate ClosureLink(g: Grammar, lambda: seq<bool>, states: seq<State>, p: Place, q: Place) {
    p.0 == q.0 < |states| && p.1 in states[p.0].configs && q.1 in PredictedFrom(g, p.1, 0) && AllLambda(lambda, After(g, p.1))
  }

  /** Along a shift, from a configuration to its advanced copy. */
  ghost predicate ShiftLink(g: Grammar, states: seq<State>, p: Place, q: Place) {
    && p.0 < |states| && p.1 in states[p.0].configs
    && exists k :: 0 <= k < |states[p.0].shifts| && NextIs(g, p.1, states[p.0].shifts[k].sp)
                   && q == (states[p.0].shifts[k].target, Advance(p.1))
  }

  ghost predicate LinksOk(g: Grammar, lambda: seq<bool>, states: seq<State>, links: set<(Place, Place)>) {
    forall p, q :: (p, q) in links <==> ClosureLink(g, lambda, states, p, q) || ShiftLink(g, states, p, q)
  }

  // ---- Termination: the bases still possible ----

  ghost function PowerSet<T(!new)>(u: set<T>): set<set<T>> {
    if u == {} then {{}} else
      var x :| x in u;
      var p := PowerSet(u - {x});
      p + WithEach(p, x)
  }

  ghost function WithEach<T(!new)>(p: set<set<T>>, x: T): set<set<T>> {
    set s | s in p :: s + {x}
  }

  lemma {:induction false} InPowerSet<T(!new)>(u: set<T>, a: set<T>)
    requires a <= u
    ensures a in PowerSet(u)
    decreases u
  {
    if u == {} {
      assert a == {};
    } else {
      var x :| x in u && PowerSet(u) == PowerSet(u - {x}) + WithEach(PowerSet(u - {x}), x);
      InPowerSet(u - {x}, a - {x});
      assert a == if x in a then (a - {x}) + {x} else a - {x};
      assert (a - {x}) + {x} in WithEach(PowerSet(u - {x}), x);
    }
  }

  ghost function Bases(states: seq<State>): set<set<Config>> {
    set s: nat | s < |states| :: Elements(states[s].basis)
  }

  ghost function Remaining(g: Grammar, states: seq<State>): set<set<Config>> {
    PowerSet(AllConfigs(g)) - Bases(states)
  }

  lemma NewBasisIsProgress(g: Grammar, states: seq<State>, st: State)
    requires Elements(st.basis) <= AllConfigs(g) && Elements(st.basis) !in Bases(states)
    ensures Remaining(g, states + [st]) < Remaining(g, states)
  {
    var after := states + [st];
    InPowerSet(AllConfigs(g), Elements(st.basis));
    assert after[|states|] == st;
    assert forall s :: 0 <= s < |states| ==> after[s] == states[s];
    assert Elements(st.basis) in Bases(after);
    assert Bases(states) <= Bases(after);
  }

  /** States keep their place, basis and closure; only state `s` may have gained shifts. */
  ghost predicate GrownFrom(before: seq<State>, after: seq<State>) {
    && |before| <= |after|
    && forall i :: 0 <= i < |before| ==> after[i].basis == before[i].basis && after[i].configs == before[i].configs
  }

  lemma GrownRemaining(g: Grammar, before: seq<State>, after: seq<State>)
    requires GrownFrom(before, after)
    ensures Remaining(g, after) <= Remaining(g, before)
  {
    assert Bases(before) <= Bases(after) by {
      forall b | b in Bases(before)
        ensures b in Bases(after)
      {
        var s: nat :| s < |before| && Elements(before[s].basis) == b;
        assert Elements(after[s].basis) == b;
      }
    }
  }

  lemma CompleteGrows(g: Grammar, before: seq<State>, after: seq<State>, s: nat)
    requires GrownFrom(before, after) && s < |before| && after[s] == before[s]
    ensures ShiftsOk(g, before, s) ==> ShiftsOk(g, after, s)
    ensures Complete(g, before, s) ==> Complete(g, after, s)
  {
    if ShiftsOk(g, before, s) {
      forall k | 0 <= k < |after[s].shifts|
        ensures var sh := after[s].shifts[k];
                && sh.target < |after|
                && GotoSet(g, Elements(after[s].configs), sh.sp) != {}
                && Elements(after[sh.target].basis) == GotoSet(g, Elements(after[s].configs), sh.sp)
      {
        var sh := before[s].shifts[k];
        assert after[sh.target].basis == before[sh.target].basis;
      }
    }
  }

  // ---- The construction invariant, on values ----

  ghost predicate Inv(g: Grammar, lambda: seq<bool>, first: seq<set<Symbol>>,
                      states: seq<State>, fws: map<Place, set<Symbol>>, links: set<(Place, Place)>)
    requires |lambda| == |first| == g.nsymbol
  {
    && (forall s :: 0 <= s < |states| ==> StateOk(g, states[s]) && ShiftsOk(g, states, s))
    && DistinctBases(states)
    && SeedsOk(g, lambda, first, states, fws)
    && LinksOk(g, lambda, states, links)
  }

  function Tag(s: nat, cfws: Follows): map<Place, set<Symbol>> {
    map p: Place | p in set c | c in cfws :: (s, c) :: cfws[p.1]
  }

  function TagLinks(s: nat, clinks: Links): set<(Place, Place)> {
    set l | l in clinks :: ((s, l.0), (s, l.1))
  }

  /** The links of a shift over x from state s to state t. */
  function ShiftFan(g: Grammar, s: nat, configs: seq<Config>, x: Symbol, t: nat): set<(Place, Place)> {
    set c | c in configs && NextIs(g, c, x) :: ((s, c), (t, Advance(c)))
  }

  lemma NewStateSeeds(g: Grammar, lambda: seq<bool>, first: seq<set<Symbol>>, states: seq<State>, fws: map<Place, set<Symbol>>,
                      st: State, cs: seq<Config>, fws0: Follows, cfws: Follows)
    requires |lambda| == |first| == g.nsymbol
    requires SeedsOk(g, lambda, first, states, fws)
    requires Elements(cs) == Elements(st.configs)
    requires fws0 == map c | c in st.basis :: if states == [] then {0} else {}
    requires FollowsOk(g, lambda, first, fws0, cs, |cs|, cfws)
    ensures SeedsOk(g, lambda, first, states + [st], fws + Tag(|states|, cfws))
  {
    hide Sends, Heads;
    var after, n := states + [st], |states|;
    var fws' := fws + Tag(n, cfws);
    forall s, c | 0 <= s < |after| && c in after[s].configs
      ensures (s, c) in fws' && forall t :: t in fws'[(s, c)] <==> IsSeed(g, lambda, first, after, s, c, t)
    {
      if s < n {
        assert after[s] == states[s] && after[0] == states[0];
        assert (s, c) !in Tag(n, cfws);
        assert fws'[(s, c)] == fws[(s, c)];
        forall t
          ensures t in fws'[(s, c)] <==> IsSeed(g, lambda, first, after, s, c, t)
        {
          assert t in fws[(s, c)] <==> IsSeed(g, lambda, first, states, s, c, t);
        }
      } else {
        assert c in Elements(cs) && fws'[(s, c)] == cfws[c];
        forall t
          ensures t in fws'[(s, c)] <==> IsSeed(g, lambda, first, after, s, c, t)
        {
          NewStateSeed(g, lambda, first, after, st, cs, c, t);
          assert t in FollowOf(fws0, c) <==> s == 0 && c in after[0].basis && t == 0;
        }
      }
    }
  }

  lemma NewStateSeed(g: Grammar, lambda: seq<bool>, first: seq<set<Symbol>>, after: seq<State>, st: State, cs: seq<Config>, c: Config, t: Symbol)
    requires |lambda| == |first| == g.nsymbol
    requires Elements(cs) == Elements(st.configs)
    ensures t in Sent(g, lambda, first, cs, |cs|, c) <==> exists d :: d in st.configs && t in Sends(g, lambda, first, d, c)
  {
    hide Sends, Heads;
    SentMeans(g, lambda, first, cs, |cs|, c, t);
    if i :| 0 <= i < |cs| && t in Sends(g, lambda, first, cs[i], c) {
      assert cs[i] in Elements(cs);
    }
    if d :| d in st.configs && t in Sends(g, lambda, first, d, c) {
      assert d in Elements(st.configs);
      var i :| 0 <= i < |cs| && cs[i] == d;
    }
  }

  lemma NewStateLinks(g: Grammar, lambda: seq<bool>, states: seq<State>, links: set<(Place, Place)>,
                      st: State, cs: seq<Config>, clinks: Links)
    requires LinksOk(g, lambda, states, links)
    requires Elements(cs) == Elements(st.configs) && st.shifts == []
    requires clinks == LinksOf(g, lambda, cs, |cs|)
    ensures LinksOk(g, lambda, states + [st], links + TagLinks(|states|, clinks))
  {
    hide AllLambda, After, PredictedFrom;
    var after, n := states + [st], |states|;
    var links' := links + TagLinks(n, clinks);
    forall p, q
      ensures (p, q) in links' <==> ClosureLink(g, lambda, after, p, q) || ShiftLink(g, after, p, q)
    {
      assert (p, q) in links <==> ClosureLink(g, lambda, states, p, q) || ShiftLink(g, states, p, q);
      if p.0 < n {
        assert after[p.0] == states[p.0];
      } else {
        LinksMean(g, lambda, cs, |cs|, p.1, q.1);
        assert cs[..|cs|] == cs;
        assert p.1 in cs <==> p.1 in Elements(cs);
        assert p.1 in st.configs <==> p.1 in Elements(st.configs);
        assert (p, q) in TagLinks(n, clinks) <==> p.0 == q.0 == n && (p.1, q.1) in clinks;
      }
    }
  }

  /** getstate, new basis: the invariant holds with the new state appended. */
  lemma NewStateInv(g: Grammar, lambda: seq<bool>, first: seq<set<Symbol>>,
                    states: seq<State>, fws: map<Place, set<Symbol>>, links: set<(Place, Place)>,
                    st: State, cs: seq<Config>, fws0: Follows, cfws: Follows, clinks: Links)
    requires |lambda| == |first| == g.nsymbol
    requires Inv(g, lambda, first, states, fws, links)
    requires StateOk(g, st) && st.shifts == [] && Elements(st.basis) !in Bases(states)
    requires Elements(cs) == Elements(st.configs)
    requires fws0 == map c | c in st.basis :: if states == [] then {0} else {}
    requires FollowsOk(g, lambda, first, fws0, cs, |cs|, cfws) && clinks == LinksOf(g, lambda, cs, |cs|)
    ensures Inv(g, lambda, first, states + [st], fws + Tag(|states|, cfws), links + TagLinks(|states|, clinks))
  {
    hide StateOk, SeedsOk, LinksOk, FollowsOk;
    NewStateSeeds(g, lambda, first, states, fws, st, cs, fws0, cfws);
    NewStateLinks(g, lambda, states, links, st, cs, clinks);
    var after := states + [st];
    forall s | 0 <= s < |after|
      ensures StateOk(g, after[s]) && ShiftsOk(g, after, s)
    {
      if s < |states| {
        CompleteGrows(g, states, after, s);
      }
    }
    forall i, j | 0 <= i < j < |after|
      ensures Elements(after[i].basis) != Elements(after[j].basis)
    {
      assert Elements(after[i].basis) in Bases(states);
    }
  }

  /** State s with one more shift. */
  function WithShift(states: seq<State>, s: nat, x: Symbol, t: nat): seq<State>
    requires s < |states|
  {
    states[s := states[s].(shifts := [Shift(x, t)] + states[s].shifts)]
  }

  lemma WithShiftLinks(g: Grammar, lambda: seq<bool>, states: seq<State>, links: set<(Place, Place)>, s: nat, x: Symbol, t: nat)
    requires s < |states| && LinksOk(g, lambda, states, links)
    ensures LinksOk(g, lambda, WithShift(states, s, x, t), links + ShiftFan(g, s, states[s].configs, x, t))
  {
    hide AllLambda, After, PredictedFrom;
    var after := WithShift(states, s, x, t);
    forall p, q
      ensures (p, q) in links + ShiftFan(g, s, states[s].configs, x, t) <==>
              ClosureLink(g, lambda, after, p, q) || ShiftLink(g, after, p, q)
    {
      assert (p, q) in links <==> ClosureLink(g, lambda, states, p, q) || ShiftLink(g, states, p, q);
      assert ClosureLink(g, lambda, states, p, q) <==> ClosureLink(g, lambda, after, p, q);
      if p.0 == s {
        var before, now := states[s].shifts, after[s].shifts;
        assert forall k :: 0 <= k < |before| ==> now[k + 1] == before[k];
        assert now[0] == Shift(x, t);
        if ShiftLink(g, states, p, q) {
          var k :| 0 <= k < |before| && NextIs(g, p.1, before[k].sp) && q == (before[k].target, Advance(p.1));
          assert now[k + 1] == before[k];
        }
        if ShiftLink(g, after, p, q) {
          var k :| 0 <= k < |now| && NextIs(g, p.1, now[k].sp) && q == (now[k].target, Advance(p.1));
          assert k > 0 ==> now[k] == before[k - 1];
        }
      }
    }
  }

  lemma WithShiftSeeds(g: Grammar, lambda: seq<bool>, first: seq<set<Symbol>>, states: seq<State>, fws: map<Place, set<Symbol>>,
                       s: nat, x: Symbol, t: nat)
    requires |lambda| == |first| == g.nsymbol
    requires s < |states| && SeedsOk(g, lambda, first, states, fws)
    ensures SeedsOk(g, lambda, first, WithShift(states, s, x, t), fws)
  {
    hide Sends, Heads;
    var after := WithShift(states, s, x, t);
    forall i, c | 0 <= i < |after| && c in after[i].configs
      ensures (i, c) in fws && forall u :: u in fws[(i, c)] <==> IsSeed(g, lambda, first, after, i, c, u)
    {
      assert after[i].configs == states[i].configs && after[0].basis == states[0].basis;
      forall u
        ensures u in fws[(i, c)] <==> IsSeed(g, lambda, first, after, i, c, u)
      {
        assert IsSeed(g, lambda, first, after, i, c, u) <==> IsSeed(g, lambda, first, states, i, c, u);
      }
    }
  }

  /** buildshifts: the invariant holds with a correct shift added to state s. */
  lemma WithShiftInv(g: Grammar, lambda: seq<bool>, first: seq<set<Symbol>>,
                     states: seq<State>, fws: map<Place, set<Symbol>>, links: set<(Place, Place)>, s: nat, x: Symbol, t: nat)
    requires |lambda| == |first| == g.nsymbol
    requires Inv(g, lambda, first, states, fws, links) && s < |states| && t < |states|
    requires !HasShift(states[s], x) && GotoSet(g, Elements(states[s].configs), x) != {}
    requires Elements(states[t].basis) == GotoSet(g, Elements(states[s].configs), x)
    ensures Inv(g, lambda, first, WithShift(states, s, x, t), fws, links + ShiftFan(g, s, states[s].configs, x, t))
  {
    hide SeedsOk, LinksOk, IsClosureOf, GotoSet, ShiftFan;
    var after := WithShift(states, s, x, t);
    WithShiftLinks(g, lambda, states, links, s, x, t);
    WithShiftSeeds(g, lambda, first, states, fws, s, x, t);
    forall i | 0 <= i < |after|
      ensures StateOk(g, after[i]) && ShiftsOk(g, after, i)
    {
      assert StateOk(g, states[i]) && ShiftsOk(g, states, i);
      if i == s {
        WithShiftShifts(g, states, s, x, t);
      } else {
        CompleteGrows(g, states, after, i);
      }
    }
  }

  lemma WithShiftShifts(g: Grammar, states: seq<State>, s: nat, x: Symbol, t: nat)
    requires s < |states| && t < |states| && ShiftsOk(g, states, s)
    requires !HasShift(states[s], x) && GotoSet(g, Elements(states[s].configs), x) != {}
    requires Elements(states[t].basis) == GotoSet(g, Elements(states[s].configs), x)
    ensures ShiftsOk(g, WithShift(states, s, x, t), s)
  {
    hide GotoSet;
    var after := WithShift(states, s, x, t);
    var before, now := states[s].shifts, after[s].shifts;
    forall k | 0 <= k < |now|
      ensures now[k] == if k == 0 then Shift(x, t) else before[k - 1]
    {
    }
    assert forall i :: 0 <= i < |states| ==> after[i].basis == states[i].basis && after[i].configs == states[i].configs;
  }

  // ---- buildshifts, part by part ----

  /** A configuration is done when its symbol has been shifted over. */
  ghost predicate DoneOk(g: Grammar, st: State, done: seq<bool>) {
    && |done| == |st.configs|
    && forall k, x :: 0 <= k < |done| && NextIs(g, st.configs[k], x) ==> (done[k] <==> HasShift(st, x))
  }

  /** The inner loop of buildshifts: marks every configuration with sp after its dot and
      collects its advanced copy. */
  method Gather(g: Grammar, configs: seq<Config>, done0: seq<bool>, i: nat, sp: Symbol)
    returns (done: seq<bool>, basis: seq<Config>)
    requires |done0| == |configs| && i < |configs| && Increasing(configs) && Elements(configs) <= AllConfigs(g)
    requires forall k :: 0 <= k < |configs| && NextIs(g, configs[k], sp) ==> i <= k && !done0[k]
    ensures |done| == |done0| && forall k :: 0 <= k < |done| ==> done[k] == (done0[k] || NextIs(g, configs[k], sp))
    ensures NoDuplicates(basis) && Elements(basis) <= AllConfigs(g)
    ensures Elements(basis) == GotoSet(g, Elements(configs), sp)
  {
    done, basis := done0, [];
    for j := i to |configs|
      invariant |done| == |done0|
      invariant forall k :: 0 <= k < |done| ==> done[k] == (done0[k] || (k < j && NextIs(g, configs[k], sp)))
      invariant NoDuplicates(basis) && Elements(basis) <= AllConfigs(g)
      invariant Elements(basis) == GotoSet(g, Elements(configs[..j]), sp)
      invariant forall b :: b in basis ==> b.dot > 0 && Config(b.rule, b.dot - 1) in configs[..j]
    {
      var c := configs[j];
      GatherStep(g, configs, j, sp);
      assert c in Elements(configs);
      if !done[j] && c.dot < |g.rules[c.rule].rhs| && g.rules[c.rule].rhs[c.dot] == sp {
        done := done[j := true];
        assert Advance(c) !in basis by {
          assert forall k :: 0 <= k < j ==> ConfigCmp(configs[k], c) < 0;
        }
        basis := basis + [Advance(c)];
        assert Elements(basis) == Elements(basis[..|basis| - 1]) + {Advance(c)};
      }
    }
    assert configs[..|configs|] == configs;
    assert GotoSet(g, Elements(configs[..i]), sp) == {};
  }

  lemma GatherStep(g: Grammar, configs: seq<Config>, j: nat, sp: Symbol)
    requires j < |configs|
    ensures GotoSet(g, Elements(configs[..j + 1]), sp) ==
            GotoSet(g, Elements(configs[..j]), sp) + if NextIs(g, configs[j], sp) then {Advance(configs[j])} else {}
    ensures forall c :: c in configs[..j] ==> c in configs[..j + 1]
  {
    assert configs[..j + 1] == configs[..j] + [configs[j]];
  }

  /** When configuration i is not done, no earlier one shares its symbol and none is done. */
  lemma FirstOfItsSymbol(g: Grammar, st: State, done: seq<bool>, i: nat, sp: Symbol)
    requires DoneOk(g, st, done) && i < |done| && !done[i] && NextIs(g, st.configs[i], sp)
    requires forall k, x :: 0 <= k < i && NextIs(g, st.configs[k], x) ==> done[k]
    ensures !HasShift(st, sp)
    ensures forall k :: 0 <= k < |done| && NextIs(g, st.configs[k], sp) ==> i <= k && !done[k]
    ensures GotoSet(g, Elements(st.configs), sp) != {}
  {
    assert Advance(st.configs[i]) in GotoSet(g, Elements(st.configs), sp);
  }

  lemma DoneStep(g: Grammar, st: State, done0: seq<bool>, done: seq<bool>, sp: Symbol, t: nat)
    requires DoneOk(g, st, done0) && |done| == |done0|
    requires forall k :: 0 <= k < |done| ==> done[k] == (done0[k] || NextIs(g, st.configs[k], sp))
    ensures DoneOk(g, st.(shifts := [Shift(sp, t)] + st.shifts), done)
  {
    var now := [Shift(sp, t)] + st.shifts;
    var after := st.(shifts := now);
    forall x
      ensures HasShift(after, x) <==> x == sp || HasShift(st, x)
    {
      assert now[0].sp == sp;
      if k :| 0 <= k < |st.shifts| && st.shifts[k].sp == x {
        assert now[k + 1].sp == x;
      }
      if k :| 0 <= k < |now| && now[k].sp == x {
        assert k > 0 ==> st.shifts[k - 1].sp == x;
      }
    }
  }

  /** Every state from lo on is complete and has a parent not before s. */
  ghost predicate AllDone(g: Grammar, states: seq<State>, lo: nat, s: nat) {
    forall j :: lo <= j < |states| ==> Complete(g, states, j) && HasParent(states, j, s)
  }

  lemma ParentKept(before: seq<State>, after: seq<State>, j: nat, lo: nat, lo': nat)
    requires HasParent(before, j, lo) && lo' <= lo && |before| <= |after|
    requires forall p :: 0 <= p < |before| ==> forall sh :: sh in before[p].shifts ==> sh in after[p].shifts
    ensures HasParent(after, j, lo')
  {
    var p, sh :| lo <= p < j && p < |before| && sh in before[p].shifts && sh.target == j;
    assert sh in after[p].shifts;
  }

  /** One round of buildshifts: the successor (old or new) exists, and s gains the shift. */
  lemma RoundDone(g: Grammar, before: seq<State>, mid: seq<State>, s: nat, x: Symbol, t: nat, lo: nat)
    requires s < lo <= |before| && before <= mid && t < |mid|
    requires AllDone(g, before, lo, s)
    requires forall j :: |before| <= j < |mid| ==> Complete(g, mid, j)
    requires forall j :: |before| <= j < |mid| && j != t ==> HasParent(mid, j, |before|)
    ensures AllDone(g, WithShift(mid, s, x, t), lo, s)
  {
    hide Complete;
    var after := WithShift(mid, s, x, t);
    forall j | lo <= j < |after|
      ensures Complete(g, after, j) && HasParent(after, j, s)
    {
      CompleteGrows(g, mid, after, j);
      if j < |before| {
        CompleteGrows(g, before, mid, j);
        ParentKept(before, after, j, s, s);
      } else if j == t {
        assert Shift(x, t) in after[s].shifts;
      } else {
        ParentKept(mid, after, j, |before|, s);
      }
    }
  }

  class Lemon {
    const g: Grammar
    const lambda: seq<bool>
    const first: seq<set<Symbol>>
    var states: seq<State>
    var fws: map<Place, set<Symbol>>
    var links: set<(Place, Place)>

    ghost predicate GrammarOk() {
      && g.Valid() && Sortable(g) && |lambda| == |first| == g.nsymbol
      && (forall s :: 0 <= s < g.nterminal ==> !lambda[s])
      && (forall s: nat, t :: g.IsNonterminal(s) && t in first[s] ==> g.IsTerminal(t))
    }

    ghost predicate Ok()
      reads this
    {
      GrammarOk() && Inv(g, lambda, first, states, fws, links)
    }

    /** FindFirstSets has run; no states yet. */
    constructor (g: Grammar)
      requires g.Valid() && Sortable(g)
      ensures Ok() && this.g == g && states == []
      ensures ExactSets(g, lambda, first)
    {
      hide Nullable, Begins, LambdaClosed;
      var l := FindLambdas(g);
      var f := FindFirsts(g, l);
      this.g, lambda, first := g, l, f;
      states, fws, links := [], map[], {};
    }

    /** FindStates: starts from all rules of the start symbol, dot at the left. */
    method FindStates()
      requires Ok() && states == []
      modifies this
      ensures Ok() && IsLr0(g, states)
    {
      hide Inv, Complete, StateOk, HasParent;
      var list: seq<Config> := [];
      var k := |g.rules|;
      while k > 0
        invariant 0 <= k <= |g.rules| && NoDuplicates(list)
        invariant forall c :: c in list <==> k <= c.rule < |g.rules| && c.dot == 0 && g.rules[c.rule].lhs == g.start
      {
        k := k - 1;
        if g.rules[k].lhs == g.start {
          list := list + [Config(k, 0)];
        }
      }
      assert Elements(list) == StartBasis(g);
      var s := GetState(list, {0});
      OkIsLr0(s);
    }

    lemma OkIsLr0(s: nat)
      requires Ok() && s == 0 && states != []
      requires Elements(states[0].basis) == StartBasis(g)
      requires forall j :: 0 <= j < |states| ==> Complete(g, states, j)
      requires forall j :: 0 <= j < |states| && j != s ==> HasParent(states, j, 0)
      ensures IsLr0(g, states)
    {
      hide Complete, StateOk, HasParent;
    }

    /** State_find: the state with this basis, or the number of states. */
    method FindState(basis: seq<Config>) returns (s: nat)
      ensures s <= |states|
      ensures s < |states| ==> states[s].basis == basis
      ensures s == |states| ==> forall i :: 0 <= i < |states| ==> states[i].basis != basis
    {
      s := 0;
      while s < |states|
        invariant s <= |states|
        invariant forall i :: 0 <= i < s ==> states[i].basis != basis
      {
        if states[s].basis == basis { return; }
        s := s + 1;
      }
    }

    /** getstate: the state for the configurations in `list`, built with all its successors
        if it does not exist. `seed` is the follow set the list was given. */
    method GetState(list: seq<Config>, seed: set<Symbol>) returns (s: nat)
      requires Ok() && NoDuplicates(list) && Elements(list) <= AllConfigs(g)
      requires seed == if states == [] then {0} else {}
      modifies this
      ensures Ok() && old(states) <= states
      ensures s < |states| && Elements(states[s].basis) == Elements(list)
      ensures s <= |old(states)|
      ensures forall j :: |old(states)| <= j < |states| ==> Complete(g, states, j)
      ensures forall j :: |old(states)| <= j < |states| && j != s ==> HasParent(states, j, |old(states)|)
      decreases Remaining(g, states), 1
    {
      hide StateOk, Inv, IsClosureOf, FollowsOk, Tag, TagLinks, Complete, HasParent, Remaining, NoDuplicates, AllConfigs, LinksOf;
      var basis := SortConfigs(g, list);
      s := FindState(basis);
      if s < |states| { return; }
      NewBasis(basis);
      var fws0 := map c | c in basis :: seed;
      NoDuplicatesIfIncreasing(basis);
      var cs, cfws, clinks := Closure(g, lambda, first, basis, fws0);
      var configs := SortConfigs(g, cs);
      var st := State(basis, configs, []);
      NewStateOk(g, st, cs);
      NewStateInv(g, lambda, first, states, fws, links, st, cs, fws0, cfws, clinks);
      NewBasisIsProgress(g, states, st);
      fws := fws + Tag(s, cfws);
      links := links + TagLinks(s, clinks);
      states := states + [st];
      BuildShifts(s);
    }

    lemma NewBasis(basis: seq<Config>)
      requires Ok() && Increasing(basis) && forall i :: 0 <= i < |states| ==> states[i].basis != basis
      ensures Elements(basis) !in Bases(states)
    {
      forall i | 0 <= i < |states|
        ensures Elements(states[i].basis) != Elements(basis)
      {
        if Elements(states[i].basis) == Elements(basis) {
          assert StateOk(g, states[i]);
          IncreasingUnique(states[i].basis, basis);
        }
      }
    }

    /** buildshifts: all successors of state s. */
    method BuildShifts(s: nat)
      requires Ok() && s < |states| && states[s].shifts == []
      modifies this
      ensures Ok() && GrownFrom(old(states), states)
      ensures forall i :: 0 <= i < |old(states)| && i != s ==> states[i] == old(states)[i]
      ensures Complete(g, states, s) && AllDone(g, states, |old(states)|, s)
      decreases Remaining(g, states), 2
    {
      hide Inv, Remaining, GotoSet, HasParent, ShiftFan, AllDone, StateOk, ShiftsOk, NoDuplicates, Increasing;
      var configs := states[s].configs;
      var done := seq(|configs|, _ => false);
      var i := 0;
      StateFacts(s);
      AllDoneNone(g, states, s);
      while i < |configs|
        invariant 0 <= i <= |configs|
        invariant Ok() && GrownFrom(old(states), states) && states[s].configs == configs
        invariant forall j :: 0 <= j < |old(states)| && j != s ==> states[j] == old(states)[j]
        invariant DoneOk(g, states[s], done)
        invariant forall k, x :: 0 <= k < i && NextIs(g, configs[k], x) ==> done[k]
        invariant AllDone(g, states, |old(states)|, s)
        invariant Remaining(g, states) <= Remaining(g, old(states))
      {
        assert configs[i] in Elements(configs);
        assert ConfigOk(g, configs[i]);
        if !done[i] && configs[i].dot < |g.rules[configs[i].rule].rhs| {
          var sp := g.rules[configs[i].rule].rhs[configs[i].dot];
          ghost var before := states;
          FirstOfItsSymbol(g, states[s], done, i, sp);
          var marked, basis := Gather(g, configs, done, i, sp);
          var t := GetState(basis, {});
          GrownRemaining(g, before, states);
          RoundDone(g, before, states, s, sp, t, |old(states)|);
          WithShiftInv(g, lambda, first, states, fws, links, s, sp, t);
          DoneStep(g, states[s], done, marked, sp, t);
          GrownRemaining(g, states, WithShift(states, s, sp, t));
          links := links + ShiftFan(g, s, configs, sp, t);
          states := WithShift(states, s, sp, t);
          done := marked;
        }
        i := i + 1;
      }
      forall c, x | c in states[s].configs && NextIs(g, c, x)
        ensures HasShift(states[s], x)
      {
        var k :| 0 <= k < |configs| && configs[k] == c;
      }
      StateFacts(s);
    }

    lemma StateFacts(s: nat)
      requires Ok() && s < |states|
      ensures Increasing(states[s].configs) && Elements(states[s].configs) <= AllConfigs(g)
      ensures ShiftsOk(g, states, s)
    {
      assert StateOk(g, states[s]);
    }
  }

  lemma AllDoneNone(g: Grammar, states: seq<State>, s: nat)
    ensures AllDone(g, states, |states|, s)
  {
  }

  lemma NewStateOk(g: Grammar, st: State, cs: seq<Config>)
    requires Increasing(st.basis) && Increasing(st.configs) && Elements(st.configs) == Elements(cs)
    requires Elements(cs) <= AllConfigs(g) && IsClosureOf(g, Elements(st.basis), Elements(cs))
    ensures StateOk(g, st)
  {
  }

  lemma NoDuplicatesIfIncreasing(s: seq<Config>)
    requires Increasing(s)
    ensures NoDuplicates(s)
  {
    forall i, j | 0 <= i < j < |s|
      ensures s[i] != s[j]
    {
      assert ConfigCmp(s[i], s[j]) < 0;
    }
  }
}
