/** The parser generator from grammar to tables (src/lemon.c: main), and what its tables mean. */
module Pipeline {
  import opened Options
  import opened Grammar
  import opened FirstSets
  import opened Configs
  import opened Lr0
  import opened Actions
  import opened Compress
  import opened Tables
  import FollowSets
  import Msort

  // ---- FindLinks ----

  predicate IsPlace(states: seq<State>, p: Place) {
    p.0 < |states| && p.1 in states[p.0].configs
  }

  /** The configurations of all states, in the order the passes visit them. */
  method AllPlaces(states: seq<State>) returns (order: seq<Place>)
    ensures forall p: Place :: p in order <==> IsPlace(states, p)
  {
    order := [];
    for s := 0 to |states|
      invariant forall p: Place :: p in order <==> p.0 < s && IsPlace(states, p)
    {
      var cs := states[s].configs;
      for k := 0 to |cs|
        invariant forall p: Place :: p in order <==> (p.0 < s && IsPlace(states, p)) || (p.0 == s && p.1 in cs[..k])
      {
        assert cs[..k + 1] == cs[..k] + [cs[k]];
        order := order + [(s, cs[k])];
      }
      assert cs[..|cs|] == cs;
    }
  }

  /** Forward links as lists. */
  method FindLinks(order: seq<Place>, links: set<(Place, Place)>) returns (fplp: map<Place, seq<Place>>)
    requires forall p: Place, q: Place :: (p, q) in links ==> p in order && q in order
    ensures forall p :: p in fplp <==> p in order
    ensures forall p: Place, q: Place :: p in fplp ==> (q in fplp[p] <==> (p, q) in links)
    ensures FollowSets.LinksInside(fplp)
  {
    fplp := map p: Place | p in order :: [];
    var rest := links;
    while rest != {}
      invariant rest <= links
      invariant forall p :: p in fplp <==> p in order
      invariant forall p: Place, q: Place :: p in fplp ==> (q in fplp[p] <==> (p, q) in links - rest)
      decreases rest
    {
      var l :| l in rest;
      var (p, q) := l;
      fplp := fplp[p := [q] + fplp[p]];
      rest := rest - {l};
    }
    forall p, k | p in fplp && 0 <= k < |fplp[p]|
      ensures fplp[p][k] in fplp
    {
      assert fplp[p][k] in fplp[p];
    }
  }

  /** Links connect configurations of the automaton. */
  lemma LinkEndpoints(g: Grammar, lambda: seq<bool>, states: seq<State>, links: set<(Place, Place)>, p: Place, q: Place)
    requires LinksOk(g, lambda, states, links) && (p, q) in links
    requires forall s :: 0 <= s < |states| ==> StateOk(g, states[s]) && ShiftsOk(g, states, s)
    ensures IsPlace(states, p) && IsPlace(states, q)
  {
    hide AllLambda, After;
    assert StateOk(g, states[p.0]) && ShiftsOk(g, states, p.0);
    if ClosureLink(g, lambda, states, p, q) {
      assert p.1 in Elements(states[p.0].configs);
      var r: nat :| r < |g.rules| && Predicts(g, p.1, r) && q.1 == Config(r, 0);
      assert q.1 in Elements(states[p.0].configs);
    } else {
      var k :| 0 <= k < |states[p.0].shifts| && NextIs(g, p.1, states[p.0].shifts[k].sp)
               && q == (states[p.0].shifts[k].target, Advance(p.1));
      assert p.1 in Elements(states[p.0].configs);
      assert q.1 in GotoSet(g, Elements(states[p.0].configs), states[p.0].shifts[k].sp);
      assert StateOk(g, states[q.0]);
      assert q.1 in Elements(states[q.0].configs);
    }
  }

  lemma {:induction false} HeadsAreTerminals(g: Grammar, lambda: seq<bool>, first: seq<set<Symbol>>, u: Form, t: Symbol)
    requires |lambda| == |first| == g.nsymbol && t in Heads(g, lambda, first, u)
    requires forall s: nat, x :: g.IsNonterminal(s) && x in first[s] ==> g.IsTerminal(x)
    ensures g.IsTerminal(t)
  {
    if !g.IsTerminal(u[0]) && t !in first[u[0]] {
      HeadsAreTerminals(g, lambda, first, u[1..], t);
    }
  }

  /** The lookaheads of all configurations of an automaton: the least solution. */
  ghost predicate LookaheadsOk(g: Grammar, lambda: seq<bool>, first: seq<set<Symbol>>, states: seq<State>,
                               fplp: map<Place, seq<Place>>, seeds: map<Place, set<Symbol>>, fws: map<Place, set<Symbol>>)
    requires |lambda| == |first| == g.nsymbol
  {
    && (forall p: Place :: IsPlace(states, p) ==> p in fws)
    && fws.Keys == fplp.Keys == seeds.Keys
    && (forall p: Place, q: Place :: p in fplp ==> (q in fplp[p] <==> ClosureLink(g, lambda, states, p, q) || ShiftLink(g, states, p, q)))
    && (forall p: Place, t :: p in seeds ==> p.0 < |states| && (t in seeds[p] <==> IsSeed(g, lambda, first, states, p.0, p.1, t)))
    && forall p, t :: p in fws ==> (t in fws[p] <==> FollowSets.Flows(fplp, seeds, p, t))
  }

  /** FindLinks and FindFollowSets. */
  method FindLookaheads(lem: Lemon) returns (fws: map<Place, set<Symbol>>, ghost fplp: map<Place, seq<Place>>, ghost seeds: map<Place, set<Symbol>>)
    requires lem.Ok()
    ensures LookaheadsOk(lem.g, lem.lambda, lem.first, lem.states, fplp, seeds, fws)
  {
    hide Inv, LookaheadsOk, FollowSets.Flows, FollowSets.LinksInside;
    var order := AllPlaces(lem.states);
    LinksConnectPlaces(lem, order);
    var links := FindLinks(order, lem.links);
    PlacesAreSeeded(lem, order);
    var start: map<Place, set<Symbol>> := map p: Place | p in order :: lem.fws[p];
    SeedsBounded(lem, order, start);
    fws := FollowSets.Propagate(order, links, start, lem.g.nterminal);
    fplp, seeds := links, start;
    LookaheadsDone(lem, order, fplp, seeds, fws);
  }

  lemma LinksConnectPlaces(lem: Lemon, order: seq<Place>)
    requires lem.Ok() && forall p: Place :: p in order <==> IsPlace(lem.states, p)
    ensures forall p: Place, q: Place :: (p, q) in lem.links ==> p in order && q in order
  {
    hide IsClosureOf, LinksOk, SeedsOk, StateOk, ShiftsOk;
    forall p: Place, q: Place | (p, q) in lem.links
      ensures p in order && q in order
    {
      LinkEndpoints(lem.g, lem.lambda, lem.states, lem.links, p, q);
    }
  }

  lemma PlacesAreSeeded(lem: Lemon, order: seq<Place>)
    requires lem.Ok() && forall p: Place :: p in order <==> IsPlace(lem.states, p)
    ensures forall p: Place :: p in order ==> p in lem.fws
    ensures forall p: Place :: p in order ==> p.0 < |lem.states|
    ensures forall p: Place, t :: p in order ==> (t in lem.fws[p] <==> IsSeed(lem.g, lem.lambda, lem.first, lem.states, p.0, p.1, t))
  {
    hide IsClosureOf, LinksOk, StateOk, ShiftsOk, IsSeed;
    forall p: Place | p in order
      ensures p in lem.fws
      ensures forall t :: t in lem.fws[p] <==> IsSeed(lem.g, lem.lambda, lem.first, lem.states, p.0, p.1, t)
    {
      assert (p.0, p.1) in lem.fws;
    }
  }

  lemma LookaheadsDone(lem: Lemon, order: seq<Place>, fplp: map<Place, seq<Place>>, seeds: map<Place, set<Symbol>>, fws: map<Place, set<Symbol>>)
    requires lem.Ok() && forall p: Place :: p in order <==> IsPlace(lem.states, p)
    requires forall p :: p in fplp <==> p in order
    requires forall p: Place, q: Place :: p in fplp ==> (q in fplp[p] <==> (p, q) in lem.links)
    requires forall p: Place :: p in order ==> p in lem.fws
    requires seeds == map p: Place | p in order :: lem.fws[p]
    requires fws.Keys == fplp.Keys && forall p, t :: p in fws ==> (t in fws[p] <==> FollowSets.Flows(fplp, seeds, p, t))
    ensures LookaheadsOk(lem.g, lem.lambda, lem.first, lem.states, fplp, seeds, fws)
  {
    hide FollowSets.Flows, IsSeed, ClosureLink, ShiftLink, IsClosureOf, StateOk, ShiftsOk;
    PlacesAreSeeded(lem, order);
  }

  lemma SeedsBounded(lem: Lemon, order: seq<Place>, seeds: map<Place, set<Symbol>>)
    requires lem.Ok()
    requires forall p: Place :: p in order <==> IsPlace(lem.states, p)
    requires forall p: Place :: p in order ==> p in lem.fws
    requires seeds == map p: Place | p in order :: lem.fws[p]
    ensures FollowSets.Bounded(seeds, lem.g.nterminal)
  {
    hide IsClosureOf, Heads, LinksOk;
    forall p, t | p in seeds && t in seeds[p]
      ensures t < lem.g.nterminal
    {
      assert t in lem.fws[(p.0, p.1)];
      assert IsSeed(lem.g, lem.lambda, lem.first, lem.states, p.0, p.1, t);
      if d :| d in lem.states[p.0].configs && t in Sends(lem.g, lem.lambda, lem.first, d, p.1) {
        HeadsAreTerminals(lem.g, lem.lambda, lem.first, After(lem.g, d), t);
      }
    }
  }

  // ---- From resolved actions to table lookups ----

  /** What a state with these resolved actions and this default reduce does on x: its live
      action on x if there is one, else the default reduce, else a syntax error. */
  function TableCode(z: Sizes, acts: seq<Action>, best: Option<nat>, x: Symbol): int {
    match LiveFor(acts, x)
    case Some(a) => Code(z, a)
    case None => match best { case Some(rb) => z.nstate + rb case None => z.nstate + z.nrule }
  }

  /** Compression loses nothing but turns error entries into the default reduce. */
  lemma CompressedMeaning(g: Grammar, z: Sizes, acts: seq<Action>, out: seq<Action>, best: Option<nat>, x: Symbol)
    requires OneLive(acts) && OneLive(out) && InSymbols(acts, g.nsymbol) && z.nsymbol == g.nsymbol && x < g.nsymbol
    requires forall a :: Live(a) ==> (a in out <==> Kept(g, acts, best, a))
    ensures Meaning(z, out, x) == TableCode(z, acts, best, x)
  {
    hide OneLive;
    LiveForIsIn(acts, x);
    LiveForIsIn(out, x);
    LiveForIsIn(out, z.nsymbol);
    if best.Some? {
      LiveForIsThe(out, Action(g.nsymbol, REDUCE, best.value));
    }
    match LiveFor(acts, x)
    case None =>
    case Some(a) =>
      if a in out {
        LiveForIsThe(out, a);
      } else if LiveFor(out, x).Some? {
        OneLiveMembers(acts, a, LiveFor(out, x).value);
      }
  }

  /** With no live action on it, the shift row has only the default: never a shift. */
  lemma DefaultNeverShifts(g: Grammar, z: Sizes, acts: seq<Action>, out: seq<Action>, best: Option<nat>)
    requires InSymbols(acts, g.nsymbol) && z.nsymbol == g.nsymbol
    requires forall a :: Live(a) ==> (a in out <==> Kept(g, acts, best, a))
    ensures Default(z, out) >= z.nstate
  {
    LiveForIsIn(out, z.nsymbol);
  }

  // ---- The whole generator ----

  /** How the tables came about: propagation graph, seeds and follow sets; per state the
      actions in conflict order, the same after resolution, and the default reduce. */
  datatype Trail = Trail(
    fplp: map<Place, seq<Place>>, seeds: map<Place, set<Symbol>>, fws: map<Place, set<Symbol>>,
    lists: seq<seq<Action>>, acts: seq<seq<Action>>, best: seq<Option<nat>>)

  ghost predicate StateExplained(g: Grammar, st: State, s: nat, fws: map<Place, set<Symbol>>,
                                 list: seq<Action>, acts: seq<Action>, best: Option<nat>) {
    && IsActionList(g, st, s, fws, list)
    && OnlyKilled(list, acts) && ChampionsLive(g, list, acts)
    && OneLive(acts) && InSymbols(acts, g.nsymbol)
    && IsDefault(acts, best)
  }

  function SizesOf(g: Grammar, nstate: nat): Sizes {
    Sizes(nstate, |g.rules|, g.nterminal, g.nsymbol)
  }

  /** In every state and on every symbol the tables do what conflict resolution left, or else
      the default. */
  ghost predicate TablesDo(g: Grammar, nstate: nat, t: Tables, acts: seq<seq<Action>>, best: seq<Option<nat>>)
    requires |acts| == |best| == nstate
  {
    var z := SizesOf(g, nstate);
    && t.Shape() && t.nstate == nstate && t.nrule == |g.rules| && t.nsymbol == g.nsymbol
    && (forall s: nat, x: nat :: s < nstate && x < g.nterminal ==> t.FindShiftAction(s, x) == TableCode(z, acts[s], best[s], x))
    && (forall s: nat, x: nat :: s < nstate && g.IsNonterminal(x) ==> t.FindReduceAction(s, x) == TableCode(z, acts[s], best[s], x))
    && (forall s: nat, x: nat :: s < nstate && g.IsNonterminal(x) ==> t.FindShiftAction(s, x) >= nstate)
  }

  ghost predicate Explains(g: Grammar, lambda: seq<bool>, first: seq<set<Symbol>>, states: seq<State>, t: Tables, trail: Trail)
    requires |lambda| == |first| == g.nsymbol
  {
    && LookaheadsOk(g, lambda, first, states, trail.fplp, trail.seeds, trail.fws)
    && |trail.lists| == |trail.acts| == |trail.best| == |states|
    && (forall s :: 0 <= s < |states| ==>
          StateExplained(g, states[s], s, trail.fws, trail.lists[s], trail.acts[s], trail.best[s]))
    && TablesDo(g, |states|, t, trail.acts, trail.best)
  }

  lemma BelongsInRange(g: Grammar, states: seq<State>, s: nat, fws: map<Place, set<Symbol>>, list: seq<Action>, acts: seq<Action>)
    requires g.Valid() && s < |states| && StateOk(g, states[s]) && ShiftsOk(g, states, s)
    requires IsActionList(g, states[s], s, fws, list) && OnlyKilled(list, acts)
    ensures InSymbols(acts, g.nsymbol)
  {
    forall a | a in acts
      ensures a.sp < g.nsymbol
    {
      var i :| 0 <= i < |acts| && acts[i] == a;
      assert list[i] in list;
      assert Belongs(g, states[s], s, fws, list[i]);
      if list[i].kind == SHIFT {
        var k :| 0 <= k < |states[s].shifts| && states[s].shifts[k] == Shift(list[i].sp, list[i].arg);
        ShiftSymbolsInRange(g, states, s, k);
      }
    }
  }

  /** FindActions and CompressTables for one state. */
  method ActionsOfState(g: Grammar, states: seq<State>, s: nat, fws: map<Place, set<Symbol>>)
    returns (out: seq<Action>, ghost list: seq<Action>, ghost acts: seq<Action>, ghost best: Option<nat>)
    requires g.Accepted() && Sortable(g) && s < |states| && StateOk(g, states[s]) && ShiftsOk(g, states, s)
    requires forall p: Place :: IsPlace(states, p) ==> p in fws
    ensures StateExplained(g, states[s], s, fws, list, acts, best)
    ensures OneLive(out) && InSymbols(out, g.nsymbol + 1)
    ensures forall a :: Live(a) ==> (a in out <==> Kept(g, acts, best, a))
  {
    hide IsActionList, ChampionsLive, OneLive, InSymbols, StateOk, ShiftsOk, Belongs, OnlyKilled, SomeLive, IsDefault, Kept;
    forall c | c in states[s].configs
      ensures (s, c) in fws
    {
      assert IsPlace(states, (s, c));
    }
    var resolved, nconflict, l := FindActions(g, states, s, fws);
    list, acts := l, resolved;
    BelongsInRange(g, states, s, fws, list, acts);
    SameSize(list, acts);
    var b;
    out, b := CompressState(g, resolved);
    best := b;
  }

  lemma SameSize(list: seq<Action>, acts: seq<Action>)
    requires OnlyKilled(list, acts)
    ensures |list| == |acts|
  {
  }

  /** From a grammar to its LR(0) automaton and tables that do what its LALR(1) actions, after
      conflict resolution, say. */
  method Generate(g: Grammar) returns (t: Tables, lem: Lemon, ghost trail: Trail)
    requires g.Accepted() && Sortable(g)
    ensures lem.g == g && lem.Ok() && ExactSets(g, lem.lambda, lem.first) && IsLr0(g, lem.states)
    ensures Explains(g, lem.lambda, lem.first, lem.states, t, trail)
  {
    hide LookaheadsOk, StateExplained, Inv, Complete, DistinctBases, HasParent, StateOk, ShiftsOk, OneLive, InSymbols, Kept, IsSortedOrder, TablesMean, TablesDo;
    lem := new Lemon(g);
    lem.FindStates();
    var fws, fplp, seeds := FindLookaheads(lem);
    PlacesHaveFollows(g, lem.lambda, lem.first, lem.states, fplp, seeds, fws);
    StatesAreOk(lem);
    var all, lists, acts, best := AllActions(g, lem.states, fws);
    var z := SizesOf(g, |lem.states|);
    AllActionsOk(g, z, all);
    var counts, dflt := CountAll(z, all);
    var order := SortRows(z, all, counts);
    t := ReportTable(z, all, order);
    trail := Trail(fplp, seeds, fws, lists, acts, best);
    ExplainedOneLive(g, lem.states, fws, lists, acts, best);
    TablesDoIt(g, |lem.states|, t, all, acts, best);
  }

  /** FindActions and CompressTables for all states. */
  method AllActions(g: Grammar, states: seq<State>, fws: map<Place, set<Symbol>>)
    returns (all: seq<seq<Action>>, ghost lists: seq<seq<Action>>, ghost acts: seq<seq<Action>>, ghost best: seq<Option<nat>>)
    requires g.Accepted() && Sortable(g)
    requires forall s :: 0 <= s < |states| ==> StateOk(g, states[s]) && ShiftsOk(g, states, s)
    requires forall p: Place :: IsPlace(states, p) ==> p in fws
    ensures |all| == |lists| == |acts| == |best| == |states|
    ensures forall i :: 0 <= i < |states| ==> StateExplained(g, states[i], i, fws, lists[i], acts[i], best[i])
    ensures forall i :: 0 <= i < |states| ==> OneLive(all[i]) && InSymbols(all[i], g.nsymbol + 1)
    ensures forall i, a :: 0 <= i < |states| && Live(a) ==> (a in all[i] <==> Kept(g, acts[i], best[i], a))
  {
    hide StateExplained, StateOk, ShiftsOk, OneLive, InSymbols, Kept;
    all, lists, acts, best := [], [], [], [];
    for s := 0 to |states|
      invariant |all| == |lists| == |acts| == |best| == s
      invariant forall i :: 0 <= i < s ==> StateExplained(g, states[i], i, fws, lists[i], acts[i], best[i])
      invariant forall i :: 0 <= i < s ==> OneLive(all[i]) && InSymbols(all[i], g.nsymbol + 1)
      invariant forall i, a :: 0 <= i < s && Live(a) ==> (a in all[i] <==> Kept(g, acts[i], best[i], a))
    {
      var out, list, act, b := ActionsOfState(g, states, s, fws);
      all, lists, acts, best := all + [out], lists + [list], acts + [act], best + [b];
    }
  }

  lemma PlacesHaveFollows(g: Grammar, lambda: seq<bool>, first: seq<set<Symbol>>, states: seq<State>,
                          fplp: map<Place, seq<Place>>, seeds: map<Place, set<Symbol>>, fws: map<Place, set<Symbol>>)
    requires |lambda| == |first| == g.nsymbol && LookaheadsOk(g, lambda, first, states, fplp, seeds, fws)
    ensures forall p: Place :: IsPlace(states, p) ==> p in fws
  {
  }

  lemma StatesAreOk(lem: Lemon)
    requires lem.Ok()
    ensures forall s :: 0 <= s < |lem.states| ==> StateOk(lem.g, lem.states[s]) && ShiftsOk(lem.g, lem.states, s)
  {
  }

  lemma AllActionsOk(g: Grammar, z: Sizes, all: seq<seq<Action>>)
    requires z == SizesOf(g, |all|) && g.Valid()
    requires forall i :: 0 <= i < |all| ==> OneLive(all[i]) && InSymbols(all[i], g.nsymbol + 1)
    ensures ActionsOk(z, all)
  {
    hide OneLive;
  }

  lemma ExplainedOneLive(g: Grammar, states: seq<State>, fws: map<Place, set<Symbol>>,
                         lists: seq<seq<Action>>, acts: seq<seq<Action>>, best: seq<Option<nat>>)
    requires |lists| == |acts| == |best| == |states|
    requires forall i :: 0 <= i < |states| ==> StateExplained(g, states[i], i, fws, lists[i], acts[i], best[i])
    ensures forall i :: 0 <= i < |states| ==> OneLive(acts[i]) && InSymbols(acts[i], g.nsymbol)
  {
    hide OneLive, InSymbols, IsActionList, ChampionsLive, OnlyKilled, IsDefault;
  }

  lemma TablesDoIt(g: Grammar, nstate: nat, t: Tables, all: seq<seq<Action>>, acts: seq<seq<Action>>, best: seq<Option<nat>>)
    requires |all| == |acts| == |best| == nstate && TablesMean(t, SizesOf(g, nstate), all)
    requires forall i :: 0 <= i < nstate ==> OneLive(all[i]) && OneLive(acts[i]) && InSymbols(acts[i], g.nsymbol)
    requires forall i, a :: 0 <= i < nstate && Live(a) ==> (a in all[i] <==> Kept(g, acts[i], best[i], a))
    requires g.Valid()
    ensures TablesDo(g, nstate, t, acts, best)
  {
    hide OneLive, InSymbols, Kept, Meaning, Default, TableCode, Tables.FindShiftAction, Tables.FindReduceAction;
    var z := SizesOf(g, nstate);
    forall s: nat, x: nat | s < nstate && x < g.nsymbol
      ensures Meaning(z, all[s], x) == TableCode(z, acts[s], best[s], x)
      ensures Default(z, all[s]) >= nstate
    {
      CompressedMeaning(g, z, acts[s], all[s], best[s], x);
      DefaultNeverShifts(g, z, acts[s], all[s], best[s]);
    }
    forall s: nat, x: nat | s < nstate && g.IsNonterminal(x)
      ensures t.FindReduceAction(s, x) == TableCode(z, acts[s], best[s], x) && t.FindShiftAction(s, x) >= nstate
    {
      assert t.FindShiftAction(s, x) == Default(z, all[s]);
    }
  }
}
