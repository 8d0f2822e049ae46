/** The other direction: without conflicts, the generated parser accepts everything the grammar
    derives. With Driver's soundness it recognises exactly the language of the grammar. */
module Recognizer {
  import opened Options
  import opened Grammar
  import opened FirstSets
  import opened Configs
  import opened Lr0
  import opened Actions
  import opened Compress
  import opened Tables
  import opened Pipeline
  import opened Driver
  import FollowSets

  // ---- Derivations of concatenations come apart ----

  ghost predicate AllTerminals(g: Grammar, w: Form) {
    forall i :: 0 <= i < |w| ==> g.IsTerminal(w[i])
  }

  lemma StepLeft(g: Grammar, u: Form, v: Form, x: Form, i: nat, r: nat) returns (u': Form)
    requires StepAt(g, u + v, x, i, r) && i < |u|
    ensures Step(g, u, u') && x == u' + v
  {
    u' := u[..i] + g.rules[r].rhs + u[i + 1..];
    assert (u + v)[..i] == u[..i] && (u + v)[i + 1..] == u[i + 1..] + v;
    assert StepAt(g, u, u', i, r);
  }

  lemma StepRight(g: Grammar, u: Form, v: Form, x: Form, i: nat, r: nat) returns (v': Form)
    requires StepAt(g, u + v, x, i, r) && |u| <= i
    ensures Step(g, v, v') && x == u + v'
  {
    var k := i - |u|;
    v' := v[..k] + g.rules[r].rhs + v[k + 1..];
    assert (u + v)[..i] == u + v[..k] && (u + v)[i + 1..] == v[k + 1..];
    assert StepAt(g, v, v', k, r);
  }

  lemma FirstOfDerivation(g: Grammar, u: Form, w: Form, n: nat) returns (x: Form)
    requires DerivesIn(g, u, w, n) && n > 0
    ensures Step(g, u, x) && DerivesIn(g, x, w, n - 1)
  {
    x :| Step(g, u, x) && DerivesIn(g, x, w, n - 1);
  }

  lemma DerivesLater(g: Grammar, u: Form, x: Form, w: Form, n: nat)
    requires Step(g, u, x) && DerivesIn(g, x, w, n)
    ensures DerivesIn(g, u, w, n + 1)
  {
  }

  lemma DerivesNow(g: Grammar, u: Form, w: Form)
    ensures DerivesIn(g, u, w, 0) <==> u == w
  {
  }

  lemma {:induction false} SplitDerivation(g: Grammar, u: Form, v: Form, w: Form, n: nat)
    returns (w1: Form, w2: Form, n1: nat, n2: nat)
    requires DerivesIn(g, u + v, w, n)
    ensures w == w1 + w2 && n1 + n2 == n && DerivesIn(g, u, w1, n1) && DerivesIn(g, v, w2, n2)
    decreases n
  {
    hide DerivesIn, StepAt;
    if n == 0 {
      w1, w2, n1, n2 := u, v, 0, 0;
      DerivesNow(g, u + v, w);
      DerivesNow(g, u, u);
      DerivesNow(g, v, v);
    } else {
      var x := FirstOfDerivation(g, u + v, w, n);
      var i: nat, r: nat :| StepAt(g, u + v, x, i, r);
      if i < |u| {
        var u' := StepLeft(g, u, v, x, i, r);
        w1, w2, n1, n2 := SplitDerivation(g, u', v, w, n - 1);
        DerivesLater(g, u, u', w1, n1);
        n1 := n1 + 1;
      } else {
        var v' := StepRight(g, u, v, x, i, r);
        w1, w2, n1, n2 := SplitDerivation(g, u, v', w, n - 1);
        DerivesLater(g, v, v', w2, n2);
        n2 := n2 + 1;
      }
    }
  }

  /** Nothing derives nothing but itself. */
  lemma EmptyDerives(g: Grammar, w: Form, n: nat)
    requires DerivesIn(g, [], w, n)
    ensures w == [] && n == 0
  {
    hide StepAt;
    NoStepFromNothing(g);
  }

  lemma NoStepFromNothing(g: Grammar)
    ensures forall x :: !Step(g, [], x)
  {
  }

  /** A terminal derives only itself; a nonterminal that derives terminals does so by a rule. */
  lemma FirstStep(g: Grammar, x: Symbol, w: Form, n: nat) returns (r: nat)
    requires g.Valid() && DerivesIn(g, [x], w, n)
    ensures g.IsTerminal(x) ==> w == [x]
    ensures n == 0 ==> w == [x] && (AllTerminals(g, w) ==> g.IsTerminal(x))
    ensures n > 0 ==> r < |g.rules| && g.rules[r].lhs == x && DerivesIn(g, g.rules[r].rhs, w, n - 1)
  {
    r := 0;
    assert n == 0 ==> w[0] == x;
    if n > 0 {
      var y :| Step(g, [x], y) && DerivesIn(g, y, w, n - 1);
      var i: nat, k: nat :| StepAt(g, [x], y, i, k);
      assert [x][..0] + g.rules[k].rhs + [x][1..] == g.rules[k].rhs;
      assert g.RuleOk(g.rules[k]);
      r := k;
    }
  }

  /** A form that derives the empty string vanishes symbol by symbol. */
  lemma {:induction false} VanishingForm(g: Grammar, lambda: seq<bool>, first: seq<set<Symbol>>, v: Form, n: nat)
    requires g.Valid() && ExactSets(g, lambda, first) && InRange(g, v) && DerivesIn(g, v, [], n)
    ensures AllLambda(lambda, v)
    decreases |v|
  {
    if v != [] {
      assert v == [v[0]] + v[1..];
      var w1, w2, n1, n2 := SplitDerivation(g, [v[0]], v[1..], [], n);
      assert Nullable(g, v[0]) by { assert DerivesIn(g, [v[0]], [], n1); }
      VanishingForm(g, lambda, first, v[1..], n2);
    }
  }

  /** The first terminal of what a form derives is one of its heads. */
  lemma {:induction false} HeadOfForm(g: Grammar, lambda: seq<bool>, first: seq<set<Symbol>>, v: Form, t: Symbol, rest: Form, n: nat)
    requires g.Valid() && ExactSets(g, lambda, first) && InRange(g, v) && g.IsTerminal(t)
    requires DerivesIn(g, v, [t] + rest, n)
    ensures |lambda| == |first| == g.nsymbol && t in Heads(g, lambda, first, v)
    decreases |v|
  {
    if v == [] {
      EmptyDerives(g, [t] + rest, n);
    } else {
      assert v == [v[0]] + v[1..];
      var w1, w2, n1, n2 := SplitDerivation(g, [v[0]], v[1..], [t] + rest, n);
      var r := FirstStep(g, v[0], w1, n1);
      if w1 == [] {
        assert Nullable(g, v[0]) by { assert DerivesIn(g, [v[0]], [], n1); }
        assert w2 == [t] + rest;
        HeadOfForm(g, lambda, first, v[1..], t, rest, n2);
      } else {
        assert w1[0] == ([t] + rest)[0] == t && w1 == [t] + w1[1..];
        if g.IsNonterminal(v[0]) {
          assert Begins(g, t, v[0]) by { assert Derives(g, [v[0]], [t] + w1[1..]); }
        }
      }
    }
  }

  // ---- The setting ----

  /** No state has two actions on one symbol, before any resolution. */
  ghost predicate ConflictFree(trail: Trail) {
    forall s :: 0 <= s < |trail.lists| ==> OnePerSymbol(trail.lists[s])
  }

  ghost predicate OnePerSymbol(list: seq<Action>) {
    forall i, j :: 0 <= i < j < |list| ==> list[i].sp != list[j].sp
  }

  /** A lookahead of a configuration in a state. */
  ghost predicate Follows(m: Generated, s: nat, c: Config, a: Symbol) {
    (s, c) in m.trail.fws && a in m.trail.fws[(s, c)]
  }

  ghost predicate InState(m: Generated, s: nat, c: Config) {
    s < |m.states| && c in m.states[s].configs
  }

  // ---- What the tables do without conflicts ----

  /** Freedom from conflicts shows in the resolved lists: resolution changed nothing. */
  lemma ConflictFreeIffUnresolved(m: Generated)
    requires Sound(m)
    ensures ConflictFree(m.trail) <==> m.trail.acts == m.trail.lists
  {
    hide IsLr0, LookaheadsOk, TablesDo, TablesSound, ExactSets, StateExplained, OnePerSymbol;
    var lists, acts := m.trail.lists, m.trail.acts;
    forall s | 0 <= s < |lists|
      ensures OnePerSymbol(lists[s]) <==> acts[s] == lists[s]
    {
      StateUnresolved(m.g, m.states[s], s, m.trail.fws, lists[s], acts[s], m.trail.best[s]);
    }
  }

  lemma StateUnresolved(g: Grammar, st: State, s: nat, fws: map<Place, set<Symbol>>, list: seq<Action>, acts: seq<Action>, best: Option<nat>)
    requires StateExplained(g, st, s, fws, list, acts, best)
    ensures OnePerSymbol(list) <==> acts == list
  {
    hide IsDefault, Champion;
    forall i | 0 <= i < |list|
      ensures Live(list[i])
    {
      assert list[i] in list;
      assert Belongs(g, st, s, fws, list[i]);
    }
    if OnePerSymbol(list) {
      forall i | 0 <= i < |list|
        ensures acts[i] == list[i]
      {
        ChampionExists(g, list, list[i].sp, i, |list|);
        assert Champion(g, list, list[i].sp, |list|) == i;
      }
    }
  }

  lemma OnlyAction(m: Generated, s: nat, a: Action)
    requires Sound(m) && ConflictFree(m.trail) && s < |m.states|
    requires Belongs(m.g, m.states[s], s, m.trail.fws, a)
    ensures TableCode(SizesOf(m.g, |m.states|), m.trail.acts[s], m.trail.best[s], a.sp) == Code(SizesOf(m.g, |m.states|), a)
  {
    hide IsLr0, LookaheadsOk, TablesDo, TablesSound, Belongs, IsDefault, OneLive, ExactSets, Champion;
    assert StateExplained(m.g, m.states[s], s, m.trail.fws, m.trail.lists[s], m.trail.acts[s], m.trail.best[s]);
    var list, acts := m.trail.lists[s], m.trail.acts[s];
    assert a in list;
    var i :| 0 <= i < |list| && list[i] == a;
    ChampionExists(m.g, list, a.sp, i, |list|);
    var c := Champion(m.g, list, a.sp, |list|);
    assert list[c].sp == a.sp;
    assert c == i;
    assert Live(acts[i]);
    assert acts[i] == list[i];
    LiveForIsThe(acts, a);
  }

  lemma ShiftLookup(m: Generated, s: nat, x: Symbol, q: nat)
    requires Sound(m) && ConflictFree(m.trail) && s < |m.states| && x < m.g.nterminal
    requires Shift(x, q) in m.states[s].shifts
    ensures m.t.Shape() && m.t.nstate == |m.states| && m.t.FindShiftAction(s, x) == q
  {
    hide IsLr0, LookaheadsOk, ExactSets, TableCode, TablesSound, StateExplained, ConflictFree, Tables.FindShiftAction, Tables.FindReduceAction;
    OnlyAction(m, s, Action(x, SHIFT, q));
  }

  lemma ReduceLookup(m: Generated, s: nat, r: nat, x: Symbol)
    requires Sound(m) && ConflictFree(m.trail) && x < m.g.nterminal && r < |m.g.rules|
    requires var c := Config(r, |m.g.rules[r].rhs|); InState(m, s, c) && Follows(m, s, c, x)
    ensures m.t.Shape() && m.t.nstate == |m.states| && m.t.FindShiftAction(s, x) == m.t.nstate + r
  {
    hide IsLr0, LookaheadsOk, ExactSets, TableCode, TablesSound, StateExplained, ConflictFree, Tables.FindShiftAction, Tables.FindReduceAction;
    OnlyAction(m, s, Action(x, REDUCE, r));
  }

  // ---- What the automaton does ----

  /** A seeded lookahead is there. */
  lemma SeedFollows(m: Generated, s: nat, c: Config, a: Symbol)
    requires Sound(m) && InState(m, s, c) && IsSeed(m.g, m.lambda, m.first, m.states, s, c, a)
    ensures Follows(m, s, c, a)
  {
    hide IsLr0, ExactSets, TablesDo, TablesSound, StateExplained, IsSeed, FollowSets.ReachesIn;
    var p: Place := (s, c);
    assert IsPlace(m.states, p);
    assert p in m.trail.fws && p in m.trail.seeds;
    assert a in m.trail.seeds[p];
    ReachesItself(m.trail.fplp, p);
    assert FollowSets.Flows(m.trail.fplp, m.trail.seeds, p, a);
  }

  lemma ReachesItself(fplp: map<Place, seq<Place>>, p: Place)
    ensures FollowSets.Reaches(fplp, p, p)
  {
    assert FollowSets.ReachesIn(fplp, p, p, 0);
  }

  /** A lookahead goes on along a link. */
  lemma LinkFollows(m: Generated, s: nat, c: Config, s': nat, c': Config, a: Symbol)
    requires Sound(m) && InState(m, s, c) && InState(m, s', c') && Follows(m, s, c, a)
    requires ClosureLink(m.g, m.lambda, m.states, (s, c), (s', c')) || ShiftLink(m.g, m.states, (s, c), (s', c'))
    ensures Follows(m, s', c', a)
  {
    hide IsLr0, ExactSets, TablesDo, TablesSound, StateExplained, ClosureLink, ShiftLink, FollowSets.Flows, IsSeed;
    var p: Place, q: Place := (s, c), (s', c');
    assert IsPlace(m.states, p) && IsPlace(m.states, q);
    assert q in m.trail.fplp[p];
    FollowSets.FlowsOn(m.trail.fplp, m.trail.seeds, p, q, a);
  }

  /** Over the symbol after the dot there is a transition to a state with the advanced configuration,
      which has the same lookaheads. */
  lemma ShiftOver(m: Generated, s: nat, c: Config, x: Symbol) returns (q: nat)
    requires Sound(m) && InState(m, s, c) && NextIs(m.g, c, x)
    ensures q < |m.states| && Shift(x, q) in m.states[s].shifts && InState(m, q, Advance(c))
    ensures forall a :: Follows(m, s, c, a) ==> Follows(m, q, Advance(c), a)
  {
    hide Explains, ExactSets, TablesSound, DistinctBases, HasParent, IsClosureOf;
    assert StateOk(m.g, m.states[s]) && Complete(m.g, m.states, s);
    var k :| 0 <= k < |m.states[s].shifts| && m.states[s].shifts[k].sp == x;
    q := m.states[s].shifts[k].target;
    assert m.states[s].shifts[k] == Shift(x, q);
    assert c in Elements(m.states[s].configs);
    assert Advance(c) in GotoSet(m.g, Elements(m.states[s].configs), x);
    assert Advance(c) in Elements(m.states[q].basis);
    BasisInState(m, q, Advance(c));
    assert ShiftLink(m.g, m.states, (s, c), (q, Advance(c)));
    forall a | Follows(m, s, c, a)
      ensures Follows(m, q, Advance(c), a)
    {
      LinkFollows(m, s, c, q, Advance(c), a);
    }
  }

  lemma BasisInState(m: Generated, q: nat, c: Config)
    requires Sound(m) && q < |m.states| && c in Elements(m.states[q].basis)
    ensures InState(m, q, c)
  {
    hide Explains, ExactSets, TablesSound, DistinctBases, HasParent, Complete;
    assert StateOk(m.g, m.states[q]);
    assert c in Elements(m.states[q].configs);
  }

  /** The rules of a nonterminal after the dot are in the state, with what comes next for lookahead:
      the first terminal of what the rest derives, or the lookahead if the rest vanishes. */
  lemma Predicted(m: Generated, s: nat, c: Config, r: nat, w: Form, a: Symbol, n: nat)
    requires Sound(m) && InState(m, s, c) && Predicts(m.g, c, r) && Follows(m, s, c, a)
    requires DerivesIn(m.g, After(m.g, c), w, n) && AllTerminals(m.g, w)
    ensures InState(m, s, Config(r, 0)) && Follows(m, s, Config(r, 0), (w + [a])[0])
  {
    hide Explains, TablesSound, DistinctBases, HasParent, Complete, ExactSets, Heads, AllLambda, DerivesIn;
    assert StateOk(m.g, m.states[s]);
    assert c in Elements(m.states[s].configs);
    var p := Config(r, 0);
    assert p in Elements(m.states[s].configs);
    assert p in PredictedFrom(m.g, c, 0);
    AfterInRange(m.g, c);
    if w == [] {
      VanishingForm(m.g, m.lambda, m.first, After(m.g, c), n);
      assert ClosureLink(m.g, m.lambda, m.states, (s, c), (s, p));
      LinkFollows(m, s, c, s, p, a);
      assert (w + [a])[0] == a;
    } else {
      assert w == [w[0]] + w[1..];
      HeadOfForm(m.g, m.lambda, m.first, After(m.g, c), w[0], w[1..], n);
      assert w[0] in Sends(m.g, m.lambda, m.first, c, p);
      SeedFollows(m, s, p, w[0]);
      assert (w + [a])[0] == w[0];
    }
  }

  lemma AfterInRange(g: Grammar, c: Config)
    requires g.Valid()
    ensures InRange(g, After(g, c))
  {
    if c.rule < |g.rules| && c.dot < |g.rules[c.rule].rhs| {
      assert g.RuleOk(g.rules[c.rule]);
    }
  }

  // ---- Moves ----

  /** A stack and the input still to come, end marker and all. */
  datatype Conf = Conf(stk: seq<Entry>, input: seq<Symbol>)

  /** The parser, never short of stack, gets from one configuration to another in n steps. */
  ghost predicate Goes(m: Generated, c: Conf, d: Conf, n: nat)
    decreases n
  {
    if n == 0 then c == d else exists e :: Moves(m, c, e) && Goes(m, e, d, n - 1)
  }

  ghost predicate Moves(m: Generated, c: Conf, d: Conf) {
    && c.input != []
    && var s := OneStep(m.g, m.t, |c.stk| + 1, c.stk, c.input[0]);
       d.stk == s.stk && if s.Go? then d.input == c.input else s.outcome == Shifted && d.input == c.input[1..]
  }

  ghost predicate Reaches(m: Generated, c: Conf, d: Conf) {
    exists n: nat :: Goes(m, c, d, n)
  }

  lemma ReachesSame(m: Generated, c: Conf)
    ensures Reaches(m, c, c)
  {
    assert Goes(m, c, c, 0);
  }

  lemma {:induction false} GoesOn(m: Generated, c: Conf, d: Conf, e: Conf, k: nat, n: nat)
    requires Goes(m, c, d, k) && Goes(m, d, e, n)
    ensures Goes(m, c, e, k + n)
    decreases k
  {
    hide Moves;
    if k > 0 {
      var x :| Moves(m, c, x) && Goes(m, x, d, k - 1);
      GoesOn(m, x, d, e, k - 1, n);
    }
  }

  lemma ReachesOn(m: Generated, c: Conf, d: Conf, e: Conf)
    requires Reaches(m, c, d) && Reaches(m, d, e)
    ensures Reaches(m, c, e)
  {
    hide Goes;
    var k: nat :| Goes(m, c, d, k);
    var n: nat :| Goes(m, d, e, n);
    GoesOn(m, c, d, e, k, n);
  }

  lemma ReachesByMove(m: Generated, c: Conf, d: Conf)
    requires Moves(m, c, d)
    ensures Reaches(m, c, d)
  {
    hide Moves;
    assert Goes(m, d, d, 0);
    assert Goes(m, c, d, 1);
  }

  /** The state on top of a stack. */
  function TopState(stk: seq<Entry>): nat
    requires stk != []
  {
    stk[|stk| - 1].stateno
  }

  lemma ShiftMoves(m: Generated, stk: seq<Entry>, x: Symbol, q: nat, rest: seq<Symbol>)
    requires Sound(m) && ConflictFree(m.trail) && stk != [] && TopState(stk) < |m.states| && x < m.g.nterminal
    requires Shift(x, q) in m.states[TopState(stk)].shifts && q < |m.states|
    ensures Reaches(m, Conf(stk, [x] + rest), Conf(stk + [Entry(q, x)], rest))
  {
    hide Sound, ConflictFree, Reaches, Tables.FindShiftAction, OneStep;
    ShiftLookup(m, TopState(stk), x, q);
    OneStepIs(m.g, m.t, |stk| + 1, stk, x, q);
    assert ([x] + rest)[1..] == rest;
    assert Moves(m, Conf(stk, [x] + rest), Conf(stk + [Entry(q, x)], rest));
    ReachesByMove(m, Conf(stk, [x] + rest), Conf(stk + [Entry(q, x)], rest));
  }

  /** A finished rule on top of the stack is reduced. */
  lemma ReduceMoves(m: Generated, stk: seq<Entry>, ext: seq<Entry>, r: nat, q: nat, input: seq<Symbol>)
    requires Sound(m) && ConflictFree(m.trail) && stk != [] && TopState(stk) < |m.states|
    requires r < |m.g.rules| && |ext| == |m.g.rules[r].rhs| && q < |m.states| && input != [] && input[0] < m.g.nterminal
    requires Shift(m.g.rules[r].lhs, q) in m.states[TopState(stk)].shifts
    requires var c := Config(r, |ext|); InState(m, TopState(stk + ext), c) && Follows(m, TopState(stk + ext), c, input[0])
    ensures Moves(m, Conf(stk + ext, input), Conf(stk + [Entry(q, m.g.rules[r].lhs)], input))
    ensures Reaches(m, Conf(stk + ext, input), Conf(stk + [Entry(q, m.g.rules[r].lhs)], input))
  {
    hide ConflictFree, Reaches, Tables.FindShiftAction, Tables.FindReduceAction, OneStep, ExactSets, IsLr0, Explains, CodeSound;
    var x := m.g.rules[r].lhs;
    assert m.g.RuleOk(m.g.rules[r]);
    ReduceLookup(m, TopState(stk + ext), r, input[0]);
    OneStepIs(m.g, m.t, |stk + ext| + 1, stk + ext, input[0], m.t.nstate + r);
    assert (stk + ext)[..|stk + ext| - |ext|] == stk;
    assert m.t.FindReduceAction(TopState(stk), x) == q;
    assert Moves(m, Conf(stk + ext, input), Conf(stk + [Entry(q, x)], input));
    ReachesByMove(m, Conf(stk + ext, input), Conf(stk + [Entry(q, x)], input));
  }

  /** With the dot of a configuration in the top state, and on the input what the symbols after
      the dot derive and then one of its lookaheads, the parser gets those symbols on the stack
      and the configuration finished, lookahead next. */
  lemma {:induction false} ReadsRest(m: Generated, stk: seq<Entry>, c: Config, w: Form, n: nat, a: Symbol, tail: seq<Symbol>)
    returns (ext: seq<Entry>)
    requires Sound(m) && ConflictFree(m.trail) && stk != [] && InState(m, TopState(stk), c)
    requires c.rule < |m.g.rules| && c.dot <= |m.g.rules[c.rule].rhs|
    requires DerivesIn(m.g, m.g.rules[c.rule].rhs[c.dot..], w, n) && AllTerminals(m.g, w)
    requires Follows(m, TopState(stk), c, a) && m.g.IsTerminal(a)
    ensures |ext| == |m.g.rules[c.rule].rhs| - c.dot
    ensures Reaches(m, Conf(stk, w + ([a] + tail)), Conf(stk + ext, [a] + tail))
    ensures var d := Config(c.rule, |m.g.rules[c.rule].rhs|);
            InState(m, TopState(stk + ext), d) && Follows(m, TopState(stk + ext), d, a)
    decreases n, 1, |m.g.rules[c.rule].rhs| - c.dot
  {
    hide Sound, ConflictFree, Reaches, DerivesIn, InState, Follows;
    var rhs := m.g.rules[c.rule].rhs;
    if c.dot == |rhs| {
      assert rhs[c.dot..] == [];
      EmptyDerives(m.g, w, n);
      ext := [];
      assert stk + ext == stk && w + ([a] + tail) == [a] + tail;
      ReachesSame(m, Conf(stk, [a] + tail));
    } else {
      var x := rhs[c.dot];
      var s := TopState(stk);
      assert rhs[c.dot..] == [x] + rhs[c.dot + 1..];
      var w1, w2, n1, n2 := SplitDerivation(m.g, [x], rhs[c.dot + 1..], w, n);
      TerminalParts(m.g, w1, w2);
      var q := ShiftOver(m, s, c, x);
      var next := stk + [Entry(q, x)];
      ReadsSymbol(m, stk, c, q, w1, n1, w2, n2, a, tail);
      var more := ReadsRest(m, next, Advance(c), w2, n2, a, tail);
      ext := [Entry(q, x)] + more;
      assert next + more == stk + ext;
      assert w + ([a] + tail) == w1 + (w2 + ([a] + tail));
      ReachesOn(m, Conf(stk, w + ([a] + tail)), Conf(next, w2 + ([a] + tail)), Conf(stk + ext, [a] + tail));
    }
  }

  lemma TerminalParts(g: Grammar, u: Form, v: Form)
    requires AllTerminals(g, u + v)
    ensures AllTerminals(g, u) && AllTerminals(g, v)
  {
    forall i | 0 <= i < |u|
      ensures g.IsTerminal(u[i])
    {
      assert (u + v)[i] == u[i];
    }
    forall i | 0 <= i < |v|
      ensures g.IsTerminal(v[i])
    {
      assert (u + v)[|u| + i] == v[i];
    }
  }

  /** The same for the one symbol after the dot: a terminal is shifted; for a nonterminal the
      right-hand side that derives the input is read and then reduced. */
  lemma {:induction false} ReadsSymbol(m: Generated, stk: seq<Entry>, c: Config, q: nat,
                                       w1: Form, n1: nat, w2: Form, n2: nat, a: Symbol, tail: seq<Symbol>)
    requires Sound(m) && ConflictFree(m.trail) && stk != [] && InState(m, TopState(stk), c)
    requires c.rule < |m.g.rules| && c.dot < |m.g.rules[c.rule].rhs|
    requires var x := m.g.rules[c.rule].rhs[c.dot];
             Shift(x, q) in m.states[TopState(stk)].shifts && q < |m.states| && DerivesIn(m.g, [x], w1, n1)
    requires DerivesIn(m.g, m.g.rules[c.rule].rhs[c.dot + 1..], w2, n2)
    requires AllTerminals(m.g, w1) && AllTerminals(m.g, w2) && Follows(m, TopState(stk), c, a) && m.g.IsTerminal(a)
    ensures Reaches(m, Conf(stk, w1 + (w2 + ([a] + tail))), Conf(stk + [Entry(q, m.g.rules[c.rule].rhs[c.dot])], w2 + ([a] + tail)))
    decreases n1, 0, 0
  {
    hide ConflictFree, Reaches, DerivesIn, Follows, IsLr0, ExactSets, TablesSound, Explains;
    var x := m.g.rules[c.rule].rhs[c.dot];
    var s := TopState(stk);
    var r := FirstStep(m.g, x, w1, n1);
    var rest := w2 + ([a] + tail);
    if m.g.IsTerminal(x) {
      ShiftMoves(m, stk, x, q, rest);
    } else {
      Predicted(m, s, c, r, w2, a, n2);
      var b, more := rest[0], rest[1..];
      assert rest == [b] + more;
      assert b == (w2 + [a])[0];
      assert m.g.rules[r].rhs[0..] == m.g.rules[r].rhs;
      var ext := ReadsRest(m, stk, Config(r, 0), w1, n1 - 1, b, more);
      ReduceMoves(m, stk, ext, r, q, rest);
      ReachesOn(m, Conf(stk, w1 + rest), Conf(stk + ext, rest), Conf(stk + [Entry(q, x)], rest));
    }
  }

  // ---- Everything derived is accepted ----

  /** The start rules are in state 0, with the end marker to follow. */
  lemma StartConfig(m: Generated, r: nat)
    requires Sound(m) && r < |m.g.rules| && m.g.rules[r].lhs == m.g.start
    ensures InState(m, 0, Config(r, 0)) && Follows(m, 0, Config(r, 0), 0)
  {
    hide Explains, ExactSets, TablesSound, DistinctBases, HasParent, StateOk, Complete;
    var c := Config(r, 0);
    assert c in StartBasis(m.g);
    assert c in Elements(m.states[0].basis);
    BasisInState(m, 0, c);
    StartSeed(m, c);
    SeedFollows(m, 0, c, 0);
  }

  lemma StartSeed(m: Generated, c: Config)
    requires Sound(m) && m.states != [] && c in m.states[0].basis
    ensures |m.lambda| == |m.first| == m.g.nsymbol && IsSeed(m.g, m.lambda, m.first, m.states, 0, c, 0)
  {
    hide Explains, IsLr0, TablesSound;
  }

  /** Reduced to a start rule, the parser accepts at the end marker. */
  lemma AcceptsAtEnd(m: Generated, r: nat, ext: seq<Entry>)
    requires Sound(m) && ConflictFree(m.trail) && r < |m.g.rules| && m.g.rules[r].lhs == m.g.start && |ext| == |m.g.rules[r].rhs|
    requires var c, s := Config(r, |ext|), TopState([Entry(0, 0)] + ext); InState(m, s, c) && Follows(m, s, c, 0)
    ensures forall depth: nat :: OneStep(m.g, m.t, depth, [Entry(0, 0)] + ext, 0) == End(Accepted, [])
  {
    hide ConflictFree, Tables.FindShiftAction, Tables.FindReduceAction, OneStep, ExactSets, IsLr0, Explains, CodeSound;
    var bottom := [Entry(0, 0)];
    var stk := bottom + ext;
    assert m.g.Valid();
    ReduceLookup(m, TopState(stk), r, 0);
    assert stk[..|stk| - |ext|] == bottom;
    forall depth: nat
      ensures OneStep(m.g, m.t, depth, stk, 0) == End(Accepted, [])
    {
      OneStepIs(m.g, m.t, depth, stk, 0, m.t.nstate + r);
    }
  }

  /** What moves do, the parser does, given the stack and the steps. */
  lemma {:induction false} GoesParses(m: Generated, c: Conf, d: Conf, n: nat, depth: nat, fuel: nat, left: nat)
    requires Goes(m, c, d, n) && |c.stk| + n < depth && n < left <= fuel
    requires forall f: nat :: 0 < f <= fuel ==> ParseFrom(m.g, m.t, depth, fuel, f, d.stk, d.input)
    ensures ParseFrom(m.g, m.t, depth, fuel, left, c.stk, c.input)
    decreases n
  {
    hide OneStep;
    if n > 0 {
      var e :| Moves(m, c, e) && Goes(m, e, d, n - 1);
      DeepEnough(m, c.stk, c.input[0], depth);
      DriveMore(m.g, m.t, depth, c.stk, c.input[0], left);
      if e.input == c.input {
        GoesParses(m, e, d, n - 1, depth, fuel, left - 1);
      } else {
        GoesParses(m, e, d, n - 1, depth, fuel, fuel);
      }
    }
  }

  /** A step pushes at most one symbol, and does the same whatever the depth if that one fits. */
  lemma DeepEnough(m: Generated, stk: seq<Entry>, x: nat, depth: nat)
    requires |stk| < depth
    ensures OneStep(m.g, m.t, depth, stk, x) == OneStep(m.g, m.t, |stk| + 1, stk, x)
    ensures |OneStep(m.g, m.t, depth, stk, x).stk| <= |stk| + 1
  {
    hide Tables.FindShiftAction, Tables.FindReduceAction;
  }

  /** Every parser with that much stack and that many steps for each token accepts. */
  ghost predicate ParsesWith(m: Generated, enough: nat, input: Form) {
    forall depth: nat, fuel: nat :: enough <= depth && enough <= fuel ==> Parses(m.g, m.t, depth, fuel, input)
  }

  /** Completeness: without conflicts, whatever non-empty input the start symbol derives is
      accepted by every parser with enough stack and steps. */
  lemma DerivedIsParsed(m: Generated, input: Form)
    requires Sound(m) && ConflictFree(m.trail) && input != [] && AllTerminals(m.g, input)
    requires Derives(m.g, [m.g.start], input)
    ensures exists enough: nat :: ParsesWith(m, enough, input)
  {
    hide ConflictFree, Reaches, DerivesIn, Follows, IsLr0, ExactSets, TablesSound, Explains, InState, ParseFrom, OneStep;
    var n: nat :| DerivesIn(m.g, [m.g.start], input, n);
    var r := FirstStep(m.g, m.g.start, input, n);
    StartConfig(m, r);
    var bottom := [Entry(0, 0)];
    assert m.g.rules[r].rhs[0..] == m.g.rules[r].rhs;
    var ext := ReadsRest(m, bottom, Config(r, 0), input, n - 1, 0, []);
    assert [0] + [] == [0];
    AcceptsAtEnd(m, r, ext);
    ReachesEnough(m, input, Conf(bottom + ext, [0]));
  }

  lemma ReachesEnough(m: Generated, input: Form, d: Conf)
    requires Reaches(m, Conf([Entry(0, 0)], input + [0]), d) && input != [] && d.input == [0]
    requires forall depth: nat :: OneStep(m.g, m.t, depth, d.stk, 0) == End(Accepted, [])
    ensures exists enough: nat :: ParsesWith(m, enough, input)
  {
    hide Goes, OneStep;
    var c := Conf([Entry(0, 0)], input + [0]);
    var n: nat :| Goes(m, c, d, n);
    forall depth: nat, fuel: nat | n + 2 <= depth && n + 2 <= fuel
      ensures Parses(m.g, m.t, depth, fuel, input)
    {
      forall f: nat | 0 < f <= fuel
        ensures ParseFrom(m.g, m.t, depth, fuel, f, d.stk, d.input)
      {
        DriveMore(m.g, m.t, depth, d.stk, d.input[0], f);
        assert d.input[1..] == [];
      }
      GoesParses(m, c, d, n, depth, fuel, fuel);
    }
    assert ParsesWith(m, n + 2, input);
  }

  // ---- Nothing else is ----

  /** A stack that spells a path, and what its symbols derive. */
  ghost predicate Spells(m: Generated, stk: seq<Entry>, ylds: seq<Form>, read: Form) {
    stk != [] && IsPath(m.states, stk) && YieldsOk(m.g, stk, ylds) && Flatten(ylds) == read
  }

  /** A step keeps what has been read, or adds the token, or accepts what has been read. */
  lemma StepSound(m: Generated, depth: nat, stk: seq<Entry>, ylds: seq<Form>, read: Form, x: nat)
    requires Sound(m) && Spells(m, stk, ylds, read) && x < m.g.nterminal
    ensures var s := OneStep(m.g, m.t, depth, stk, x);
            && (s.Go? ==> exists ys :: Spells(m, s.stk, ys, read))
            && (s.End? && s.outcome == Shifted ==> exists ys :: Spells(m, s.stk, ys, read + [x]))
            && (s.End? && s.outcome == Accepted ==> x == 0 && Derives(m.g, [m.g.start], read))
  {
    hide IsLr0, Explains, ExactSets, Derives, IsPath, YieldsOk, Flatten, CanReduce, Tables.FindShiftAction, Tables.FindReduceAction, ReduceStep;
    var s := TopState(stk);
    TopInRange(m.states, stk);
    assert CodeSound(m.g, m.states, m.t.FindShiftAction(s, x), s, x);
    var act := m.t.FindShiftAction(s, x);
    OneStepIs(m.g, m.t, depth, stk, x, act);
    if act < m.t.nstate {
      DerivesRefl(m.g, [x]);
      PushOk(m.g, m.states, stk, ylds, Entry(act, x), [x]);
      assert Spells(m, stk + [Entry(act, x)], ylds + [[x]], read + [x]);
    } else if act < m.t.nstate + |m.g.rules| {
      ReduceSound(m, depth, stk, ylds, read, act - m.t.nstate);
    }
  }

  lemma TopInRange(states: seq<State>, stk: seq<Entry>)
    requires IsPath(states, stk) && stk != []
    ensures TopState(stk) < |states|
  {
  }

  lemma ReduceSound(m: Generated, depth: nat, stk: seq<Entry>, ylds: seq<Form>, read: Form, r: nat)
    requires Sound(m) && Spells(m, stk, ylds, read) && TopState(stk) < |m.states| && CanReduce(m.g, m.states, TopState(stk), r)
    ensures r < |m.g.rules|
    ensures var s := ReduceStep(m.g, m.t, depth, stk, r);
            && (s.Go? ==> exists ys :: Spells(m, s.stk, ys, read))
            && (s.End? ==> s.outcome != Shifted)
            && (s.End? && s.outcome == Accepted ==> m.g.rules[r].lhs == m.g.start && Derives(m.g, [m.g.start], read))
  {
    hide IsLr0, Explains, ExactSets, Derives, IsPath, YieldsOk, Flatten, Top, TablesSound, Tables.FindShiftAction, Tables.FindReduceAction, CodeSound, Spells;
    var q := ReduceGoes(m, stk, ylds, read, r);
  }

  /** A reduction: what the handle stands for, the left-hand side stands for on the new stack. */
  lemma ReduceGoes(m: Generated, stk: seq<Entry>, ylds: seq<Form>, read: Form, r: nat) returns (q: nat)
    requires Sound(m) && Spells(m, stk, ylds, read) && TopState(stk) < |m.states| && CanReduce(m.g, m.states, TopState(stk), r)
    ensures r < |m.g.rules| && |ylds| == |stk|
    ensures var rule := m.g.rules[r];
            var k := |stk| - |rule.rhs|;
            && 0 < k && Top(stk, |rule.rhs|) == rule.rhs
            && var next := stk[..k] + [Entry(q, rule.lhs)];
               if rule.lhs == m.g.start then Derives(m.g, [m.g.start], read) && forall depth: nat :: ReduceStep(m.g, m.t, depth, stk, r) == End(Accepted, [])
               else
                 && Spells(m, next, ylds[..k] + [Flatten(ylds[k..])], read)
                 && forall depth: nat :: ReduceStep(m.g, m.t, depth, stk, r) == if k < depth then Go(next) else End(Overflow, [])
  {
    hide IsLr0, Explains, ExactSets, Derives, IsPath, YieldsOk, Flatten, Top, Tables.FindShiftAction, Tables.FindReduceAction, CodeSound;
    var rule := m.g.rules[r];
    var k := |stk| - |rule.rhs|;
    ReduceOk(m.g, m.states, m.t, stk, r);
    YieldCount(m.g, stk, ylds);
    ReduceDerives(m.g, stk, ylds, r);
    PopOk(m.g, m.states, stk, ylds, k);
    var below, y := stk[..k], Flatten(ylds[k..]);
    TopInRange(m.states, below);
    var act := m.t.FindReduceAction(TopState(below), rule.lhs);
    q := 0;
    if rule.lhs == m.g.start {
      BottomYield(m.g, below, ylds[..k]);
      assert [] + y == y;
    } else {
      q := act;
      PushOk(m.g, m.states, below, ylds[..k], Entry(act, rule.lhs), y);
      assert Spells(m, below + [Entry(act, rule.lhs)], ylds[..k] + [y], read);
    }
  }

  lemma YieldCount(g: Grammar, stk: seq<Entry>, ylds: seq<Form>)
    requires YieldsOk(g, stk, ylds)
    ensures |ylds| == |stk|
  {
    hide Derives;
  }

  lemma BottomYield(g: Grammar, stk: seq<Entry>, ylds: seq<Form>)
    requires YieldsOk(g, stk, ylds) && |stk| == 1
    ensures Flatten(ylds) == []
  {
    hide Derives;
    FlattenBottom(ylds);
  }

  lemma {:induction false} DriveSound(m: Generated, depth: nat, stk: seq<Entry>, ylds: seq<Form>, read: Form, x: nat, fuel: nat)
    requires Sound(m) && Spells(m, stk, ylds, read) && x < m.g.nterminal
    ensures var s := Drive(m.g, m.t, depth, stk, x, fuel);
            && s.End?
            && (s.outcome == Shifted ==> exists ys :: Spells(m, s.stk, ys, read + [x]))
            && (s.outcome == Accepted ==> x == 0 && Derives(m.g, [m.g.start], read))
    decreases fuel
  {
    hide Sound, Spells, Derives, OneStep;
    if fuel > 0 {
      StepSound(m, depth, stk, ylds, read, x);
      var s := OneStep(m.g, m.t, depth, stk, x);
      if s.Go? {
        var ys :| Spells(m, s.stk, ys, read);
        DriveSound(m, depth, s.stk, ys, read, x, fuel - 1);
      }
    }
  }

  lemma FirstToken(m: Generated, depth: nat, fuel: nat, left: nat, stk: seq<Entry>, input: seq<Symbol>)
    requires ParseFrom(m.g, m.t, depth, fuel, left, stk, input)
    ensures input != []
    ensures var s := Drive(m.g, m.t, depth, stk, input[0], left);
            && s.End?
            && if s.outcome == Shifted then |input| > 1 && ParseFrom(m.g, m.t, depth, fuel, fuel, s.stk, input[1..])
               else s.outcome == Accepted && |input| == 1
  {
    hide Drive;
    NothingParses(m, depth, fuel, input[1..]);
  }

  lemma NothingParses(m: Generated, depth: nat, fuel: nat, rest: seq<Symbol>)
    ensures rest == [] ==> forall stk :: !ParseFrom(m.g, m.t, depth, fuel, fuel, stk, rest)
  {
    hide Drive, AfterToken;
  }

  lemma {:induction false} ParseSound(m: Generated, depth: nat, fuel: nat, stk: seq<Entry>, ylds: seq<Form>, read: Form, rest: Form)
    requires Sound(m) && Spells(m, stk, ylds, read) && AllTerminals(m.g, rest)
    requires ParseFrom(m.g, m.t, depth, fuel, fuel, stk, rest + [0])
    ensures Derives(m.g, [m.g.start], read + rest)
    decreases |rest|
  {
    hide Sound, Spells, Derives, Drive, ParseFrom;
    var input := rest + [0];
    EndIsTerminal(m);
    FirstToken(m, depth, fuel, fuel, stk, input);
    DriveSound(m, depth, stk, ylds, read, input[0], fuel);
    var s := Drive(m.g, m.t, depth, stk, input[0], fuel);
    assert rest == [] ==> read + rest == read;
    if s.outcome == Shifted {
      var ys :| Spells(m, s.stk, ys, read + [input[0]]);
      assert input[1..] == rest[1..] + [0];
      ParseSound(m, depth, fuel, s.stk, ys, read + [rest[0]], rest[1..]);
      assert read + [rest[0]] + rest[1..] == read + rest;
    }
  }

  lemma EndIsTerminal(m: Generated)
    requires Sound(m)
    ensures m.g.nterminal > 0
  {
    hide IsLr0, Explains, ExactSets, TablesSound;
  }

  /** Soundness: whatever is accepted, with any stack and any number of steps, the grammar derives. */
  lemma ParsedIsDerived(m: Generated, depth: nat, fuel: nat, input: Form)
    requires Sound(m) && AllTerminals(m.g, input) && Parses(m.g, m.t, depth, fuel, input)
    ensures input != [] && Derives(m.g, [m.g.start], input)
  {
    hide Derives, IsLr0, Explains, ExactSets, ParseFrom;
    var bottom := [Entry(0, 0)];
    BottomOk(m.g, m.states, m.t, bottom);
    ParseSound(m, depth, fuel, bottom, [[]], [], input);
    assert [] + input == input;
  }

  /** The generated parser of a grammar without conflicts recognises its language: it accepts an
      input, given stack and steps enough, exactly if the input is not empty and the start symbol
      derives it. */
  lemma Recognizes(m: Generated, input: Form)
    requires Sound(m) && ConflictFree(m.trail) && AllTerminals(m.g, input)
    ensures input != [] && Derives(m.g, [m.g.start], input) <==>
            exists enough: nat :: ParsesWith(m, enough, input)
  {
    hide Sound, ConflictFree, Derives, Parses;
    if input != [] && Derives(m.g, [m.g.start], input) {
      DerivedIsParsed(m, input);
    }
    if enough: nat :| ParsesWith(m, enough, input) {
      ParsedIsDerived(m, enough, enough, input);
    }
  }
}
