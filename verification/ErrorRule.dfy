/** What the generated parser does with a rule for the error symbol: an example where a syntax error
    leaves the stack as it is. */
module ErrorRule {
  import opened Options
  import opened Grammar
  import opened FirstSets
  import opened Configs
  import opened Lr0
  import opened Actions
  import opened Compress
  import opened Tables
  import opened Pipeline
  import opened Driver
  import opened Recognizer

  const A: Symbol := 1
  const B: Symbol := 2
  const C: Symbol := 3
  const D: Symbol := 4
  const S: Symbol := 5
  const ERR: Symbol := 6

  /** s ::= error B | error D, error ::= A; C is a token of no rule. */
  function Example(): Grammar {
    Grammar(5, 7, [Rule(S, [ERR, B], None), Rule(S, [ERR, D], None), Rule(ERR, [A], None)], S, ERR, map[])
  }

  /** All there is to know of its configurations. */
  lemma ExampleConfigs(c: Config, x: Symbol)
    ensures NextIs(Example(), c, x) <==>
      (c.rule < 2 && c.dot == 0 && x == ERR) || (c == Config(0, 1) && x == B) || (c == Config(1, 1) && x == D) || (c == Config(2, 0) && x == A)
    ensures c in StartBasis(Example()) <==> c == Config(0, 0) || c == Config(1, 0)
    ensures Example().Accepted()
  {
    var g := Example();
    assert g.rules[0].rhs == [ERR, B] && g.rules[1].rhs == [ERR, D] && g.rules[2].rhs == [A];
    assert forall r :: 0 <= r < 3 ==> g.RuleOk(g.rules[r]);
  }

  /** The configurations of state 0. */
  lemma StartState(m: Generated, c: Config)
    requires Sound(m) && m.g == Example()
    ensures InState(m, 0, c) ==> c in {Config(0, 0), Config(1, 0), Config(2, 0)}
    ensures InState(m, 0, Config(0, 0)) && InState(m, 0, Config(1, 0)) && InState(m, 0, Config(2, 0))
    ensures Recognizer.Follows(m, 0, Config(2, 0), B) && Recognizer.Follows(m, 0, Config(2, 0), D)
  {
    hide Explains, ExactSets, TablesSound, DistinctBases, HasParent, Complete, IsClosureOf, DerivesIn, Recognizer.Follows;
    forall d | d in m.states[0].basis
      ensures d == Config(0, 0) || d == Config(1, 0)
    {
      assert d in Elements(m.states[0].basis);
      ExampleConfigs(d, ERR);
    }
    ExampleConfigs(c, ERR);
    StartConfig(m, 0);
    StartConfig(m, 1);
    DerivesNow(m.g, [B], [B]);
    DerivesNow(m.g, [D], [D]);
    ExampleConfigs(Config(0, 0), ERR);
    ExampleConfigs(Config(1, 0), ERR);
    assert After(m.g, Config(0, 0)) == [B] && After(m.g, Config(1, 0)) == [D];
    assert ([B] + [0])[0] == B && ([D] + [0])[0] == D;
    Predicted(m, 0, Config(0, 0), 2, [B], 0, 0);
    Predicted(m, 0, Config(1, 0), 2, [D], 0, 0);
    if InState(m, 0, c) {
      Within(m, 0, {Config(0, 0), Config(1, 0), Config(2, 0)}, c);
    }
  }

  /** The closure of a basis stays inside any closed set around it. */
  lemma Within(m: Generated, s: nat, all: set<Config>, c: Config)
    requires Sound(m) && m.g == Example() && InState(m, s, c)
    requires forall d :: d in m.states[s].basis ==> d in all
    requires forall d :: d in all && (d == Config(0, 0) || d == Config(1, 0)) ==> Config(2, 0) in all
    ensures c in all
  {
    hide Explains, ExactSets, TablesSound, DistinctBases, HasParent, Complete;
    var st := m.states[s];
    assert StateOk(m.g, st);
    forall d, r: nat | d in all && Predicts(m.g, d, r)
      ensures Config(r, 0) in all
    {
      ExampleConfigs(d, m.g.rules[r].lhs);
    }
    assert Elements(st.basis) <= all && PredictionClosed(m.g, all);
    assert c in Elements(st.configs);
  }

  /** The state reached from state 0 over x has just the advanced configurations. */
  lemma NextState(m: Generated, q: nat, x: Symbol, c: Config)
    requires Sound(m) && m.g == Example() && Shift(x, q) in m.states[0].shifts && q < |m.states| && InState(m, q, c)
    requires x == A || x == ERR
    ensures if x == A then c == Config(2, 1) else c == Config(0, 1) || c == Config(1, 1)
    ensures q != 0
  {
    hide Explains, ExactSets, TablesSound, DistinctBases, HasParent, IsClosureOf;
    forall d | d in m.states[q].basis
      ensures if x == A then d == Config(2, 1) else d == Config(0, 1) || d == Config(1, 1)
    {
      AdvancedOnly(m, q, x, d);
    }
    Within(m, q, if x == A then {Config(2, 1)} else {Config(0, 1), Config(1, 1)}, c);
    if q == 0 {
      StartState(m, c);
    }
  }

  lemma AdvancedOnly(m: Generated, q: nat, x: Symbol, c: Config)
    requires Sound(m) && m.g == Example() && Shift(x, q) in m.states[0].shifts && q < |m.states| && c in m.states[q].basis
    requires x == A || x == ERR
    ensures if x == A then c == Config(2, 1) else c == Config(0, 1) || c == Config(1, 1)
  {
    hide Explains, ExactSets, TablesSound, DistinctBases, HasParent, IsClosureOf, StateOk;
    ShiftedFrom(m.g, m.states, 0, Shift(x, q), c);
    ExampleConfigs(Config(c.rule, c.dot - 1), x);
    StartState(m, Config(c.rule, c.dot - 1));
  }

  /** After the A only reduces to the error symbol are left, whatever the next token: at least two,
      so that they become the default. */
  lemma AfterA(m: Generated, q: nat, x: nat)
    requires Sound(m) && m.g == Example() && Shift(A, q) in m.states[0].shifts && q < |m.states| && InState(m, q, Config(2, 1))
    requires Recognizer.Follows(m, q, Config(2, 1), B) && Recognizer.Follows(m, q, Config(2, 1), D) && x < 5
    ensures m.t.Shape() && m.t.nstate == |m.states| && m.t.FindShiftAction(q, x) == m.t.nstate + 2
  {
    hide IsLr0, LookaheadsOk, ExactSets, TablesSound, StateExplained, Tables.FindShiftAction, Tables.FindReduceAction;
    ActionsAfterA(m, q);
    DefaultAfterA(m.trail.acts[q], m.trail.best[q]);
    LiveForIsIn(m.trail.acts[q], x);
  }

  lemma ActionsAfterA(m: Generated, q: nat)
    requires Sound(m) && m.g == Example() && Shift(A, q) in m.states[0].shifts && q < |m.states| && InState(m, q, Config(2, 1))
    requires Recognizer.Follows(m, q, Config(2, 1), B) && Recognizer.Follows(m, q, Config(2, 1), D)
    ensures var acts := m.trail.acts[q];
      && (forall a :: a in acts ==> Reduces(a, 2)) && Action(B, REDUCE, 2) in acts && Action(D, REDUCE, 2) in acts
      && IsDefault(acts, m.trail.best[q])
  {
    hide IsLr0, LookaheadsOk, ExactSets, TablesSound, TablesDo, ChampionsLive, IsDefault, OneLive;
    var list, acts, best := m.trail.lists[q], m.trail.acts[q], m.trail.best[q];
    assert StateExplained(m.g, m.states[q], q, m.trail.fws, list, acts, best);
    forall a | a in list
      ensures Reduces(a, 2)
    {
      assert Belongs(m.g, m.states[q], q, m.trail.fws, a);
      OnlyReduces(m, q, a);
    }
    forall i, j | 0 <= i < j < |list|
      ensures list[i].sp != list[j].sp
    {
      assert list[i] in list && list[j] in list;
      assert ActionCmp(list[i], list[j]) < 0;
    }
    StateUnresolved(m.g, m.states[q], q, m.trail.fws, list, acts, best);
    assert Belongs(m.g, m.states[q], q, m.trail.fws, Action(B, REDUCE, 2)) && Belongs(m.g, m.states[q], q, m.trail.fws, Action(D, REDUCE, 2));
  }

  lemma DefaultAfterA(acts: seq<Action>, best: Option<nat>)
    requires (forall a :: a in acts ==> Reduces(a, 2)) && Action(B, REDUCE, 2) in acts && Action(D, REDUCE, 2) in acts
    requires IsDefault(acts, best)
    ensures best == Some(2)
  {
    hide Count;
    var i :| 0 <= i < |acts| && acts[i] == Action(B, REDUCE, 2);
    var j :| 0 <= j < |acts| && acts[j] == Action(D, REDUCE, 2);
    AllCounted(acts, 0, 2);
    CountIsSpread(acts, 0, best.value);
    var k :| 0 <= k < |acts| && Reduces(acts[k], best.value);
    assert acts[k] in acts;
  }

  lemma {:induction false} AllCounted(acts: seq<Action>, k: nat, r: nat)
    requires k <= |acts| && forall i :: k <= i < |acts| ==> Reduces(acts[i], r)
    ensures Count(acts, k, r) == |acts| - k
    decreases |acts| - k
  {
    if k < |acts| { AllCounted(acts, k + 1, r); }
  }

  lemma OnlyReduces(m: Generated, q: nat, a: Action)
    requires Sound(m) && m.g == Example() && Shift(A, q) in m.states[0].shifts && q < |m.states| && InState(m, q, Config(2, 1))
    requires Belongs(m.g, m.states[q], q, m.trail.fws, a)
    ensures a.kind == REDUCE && a.arg == 2
  {
    hide LookaheadsOk, ExactSets, TablesSound, StateExplained, TablesDo, StateOk, DistinctBases, HasParent;
    NextState(m, q, A, Config(2, 1));
    if a.kind == SHIFT {
      var c := ShiftFrom(m, q, Shift(a.sp, a.arg));
      NextState(m, q, A, c);
      ExampleConfigs(c, a.sp);
    } else if a.kind == REDUCE {
      NextState(m, q, A, Config(a.arg, |m.g.rules[a.arg].rhs|));
    }
  }

  lemma ShiftFrom(m: Generated, q: nat, sh: Shift) returns (c: Config)
    requires Sound(m) && q < |m.states| && sh in m.states[q].shifts
    ensures InState(m, q, c) && NextIs(m.g, c, sh.sp)
  {
    hide Explains, ExactSets, TablesSound, DistinctBases, HasParent, StateOk;
    var d := BasisMember(m.g, m.states, q, sh);
    ShiftedFrom(m.g, m.states, q, sh, d);
    c := Config(d.rule, d.dot - 1);
  }

  /** After the error symbol a C is a syntax error. */
  lemma AfterError(m: Generated, q: nat)
    requires Sound(m) && m.g == Example() && Shift(ERR, q) in m.states[0].shifts && q < |m.states| && InState(m, q, Config(0, 1))
    ensures m.t.Shape() && m.t.nstate == |m.states| && m.t.FindShiftAction(q, C) == m.t.nstate + 3
  {
    hide IsLr0, LookaheadsOk, ExactSets, TablesSound, ChampionsLive, OneLive, Tables.FindShiftAction, Tables.FindReduceAction;
    var list, acts, best := m.trail.lists[q], m.trail.acts[q], m.trail.best[q];
    assert StateExplained(m.g, m.states[q], q, m.trail.fws, list, acts, best);
    forall k | 0 <= k < |acts|
      ensures acts[k].kind != REDUCE && acts[k].sp != C
    {
      assert list[k] in list;
      assert Belongs(m.g, m.states[q], q, m.trail.fws, list[k]);
      OnlyShifts(m, q, list[k]);
    }
    if best.Some? {
      CountIsSpread(acts, 0, best.value);
    }
    LiveForIsIn(acts, C);
  }

  lemma OnlyShifts(m: Generated, q: nat, a: Action)
    requires Sound(m) && m.g == Example() && Shift(ERR, q) in m.states[0].shifts && q < |m.states| && InState(m, q, Config(0, 1))
    requires Belongs(m.g, m.states[q], q, m.trail.fws, a)
    ensures a.kind != REDUCE && a.sp != C
  {
    hide LookaheadsOk, ExactSets, TablesSound, StateExplained, TablesDo, StateOk, DistinctBases, HasParent;
    NextState(m, q, ERR, Config(0, 1));
    if a.kind == SHIFT {
      var c := ShiftFrom(m, q, Shift(a.sp, a.arg));
      NextState(m, q, ERR, c);
      ExampleConfigs(c, a.sp);
    } else if a.kind == REDUCE {
      NextState(m, q, ERR, Config(a.arg, |m.g.rules[a.arg].rhs|));
    }
  }

  /** The parser of the example, fed A and then C: the A is shifted and reduced to the error symbol,
      the C is thrown away, and the stack stays as it is. */
  lemma StackKept(m: Generated, depth: nat, fuel: nat) returns (p: nat, q: nat)
    requires Sound(m) && m.g == Example() && depth >= 2 && fuel >= 2
    ensures Drive(m.g, m.t, depth, [Entry(0, 0)], A, fuel) == End(Shifted, [Entry(0, 0)] + [Entry(p, A)])
    ensures Drive(m.g, m.t, depth, [Entry(0, 0)] + [Entry(p, A)], C, fuel) == End(Discarded, [Entry(0, 0)] + [Entry(q, ERR)])
  {
    hide Explains, ExactSets, IsLr0, CodeSound, Tables.FindShiftAction, Tables.FindReduceAction, OneStep, ReduceStep, InState, Recognizer.Follows;
    var bottom := [Entry(0, 0)];
    StartState(m, Config(0, 0));
    ExampleConfigs(Config(2, 0), A);
    ExampleConfigs(Config(0, 0), ERR);
    p := ShiftOver(m, 0, Config(2, 0), A);
    q := ShiftOver(m, 0, Config(0, 0), ERR);
    ShiftA(m, p);
    OneStepIs(m.g, m.t, depth, bottom, A, p);
    DriveMore(m.g, m.t, depth, bottom, A, fuel);
    AfterA(m, p, C);
    var stk := bottom + [Entry(p, A)];
    OneStepIs(m.g, m.t, depth, stk, C, m.t.nstate + 2);
    ReduceA(m, depth, p, q);
    DriveMore(m.g, m.t, depth, stk, C, fuel);
    AfterError(m, q);
    OneStepIs(m.g, m.t, depth, bottom + [Entry(q, ERR)], C, m.t.nstate + 3);
    DriveMore(m.g, m.t, depth, bottom + [Entry(q, ERR)], C, fuel - 1);
  }

  lemma ReduceA(m: Generated, depth: nat, p: nat, q: nat)
    requires Sound(m) && m.g == Example() && depth >= 2 && Shift(ERR, q) in m.states[0].shifts && q < |m.states|
    ensures ReduceStep(m.g, m.t, depth, [Entry(0, 0)] + [Entry(p, A)], 2) == Go([Entry(0, 0)] + [Entry(q, ERR)])
  {
    hide Explains, ExactSets, IsLr0, CodeSound, Tables.FindShiftAction, Tables.FindReduceAction;
    var stk := [Entry(0, 0)] + [Entry(p, A)];
    assert stk[..1] == [Entry(0, 0)];
    assert m.t.FindReduceAction(0, ERR) == q;
  }

  /** In state 0 the A is shifted: the state has nothing else to do on it. */
  lemma ShiftA(m: Generated, p: nat)
    requires Sound(m) && m.g == Example() && Shift(A, p) in m.states[0].shifts && p < |m.states|
    ensures m.t.Shape() && m.t.nstate == |m.states| && m.t.FindShiftAction(0, A) == p
  {
    hide IsLr0, LookaheadsOk, ExactSets, TablesSound, ChampionsLive, Tables.FindShiftAction, Tables.FindReduceAction;
    var list, acts, best := m.trail.lists[0], m.trail.acts[0], m.trail.best[0];
    assert StateExplained(m.g, m.states[0], 0, m.trail.fws, list, acts, best);
    forall a | a in list
      ensures a.kind != REDUCE
    {
      assert Belongs(m.g, m.states[0], 0, m.trail.fws, a);
      if a.kind == REDUCE { StartState(m, Config(a.arg, |m.g.rules[a.arg].rhs|)); }
    }
    AllShiftsOk(m.g, m.states);
    ExampleConfigs(Config(0, 0), A);
    forall i, j | 0 <= i < j < |list|
      ensures list[i].sp != list[j].sp
    {
      assert list[i] in list && list[j] in list;
      if list[i].sp == list[j].sp { PairIsFresh(m.g, m.states, 0, m.trail.fws, list[i], list[j]); }
    }
    StateUnresolved(m.g, m.states[0], 0, m.trail.fws, list, acts, best);
    assert Belongs(m.g, m.states[0], 0, m.trail.fws, Action(A, SHIFT, p));
    LiveForIsThe(acts, Action(A, SHIFT, p));
  }
}
