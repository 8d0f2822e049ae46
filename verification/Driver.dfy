/** The generated parser (src/lempar.c): a stack machine that reads the packed tables. */
module Driver {
  import opened Options
  import opened Grammar
  import opened Configs
  import opened Lr0
  import opened Actions
  import opened Compress
  import opened Tables
  import opened Pipeline
  import opened FirstSets
  import FollowSets

  // ---- What the tables guarantee ----

  /** A finished configuration of rule r is in state s. */
  ghost predicate CanReduce(g: Grammar, states: seq<State>, s: nat, r: nat) {
    s < |states| && r < |g.rules| && Config(r, |g.rules[r].rhs|) in states[s].configs
  }

  /** Everything the driver needs to know of the tables. */
  ghost predicate TablesSound(g: Grammar, states: seq<State>, t: Tables) {
    && t.Shape() && 0 < t.nstate == |states| && t.nrule == |g.rules| && t.nsymbol == g.nsymbol
    && (forall s: nat, x: nat :: s < |states| && x < g.nterminal ==> CodeSound(g, states, t.FindShiftAction(s, x), s, x))
    && (forall s: nat, sh :: s < |states| && sh in states[s].shifts && g.IsNonterminal(sh.sp) ==>
          t.FindReduceAction(s, sh.sp) == sh.target)
    && t.FindReduceAction(0, g.start) == t.AcceptAction()
    && (forall s: nat :: s < |states| ==> t.FindShiftAction(s, g.errsym) >= t.nstate)
  }

  /** On terminal x, state s shifts along a transition, or reduces by a rule it has finished (a
      start rule at the end of input only), or finds a syntax error. */
  ghost predicate CodeSound(g: Grammar, states: seq<State>, c: int, s: nat, x: nat)
    requires s < |states|
  {
    var n := |states|;
    if 0 <= c < n then Shift(x, c) in states[s].shifts
    else if n <= c < n + |g.rules| then CanReduce(g, states, s, c - n) && (g.rules[c - n].lhs == g.start ==> x == 0)
    else c == n + |g.rules|
  }

  // ---- ... and that generated tables do ----

  /** Lookaheads flow into a configuration of the start rules only from the end marker. */
  lemma {:induction false} OnlyEndFollowsStart(g: Grammar, lambda: seq<bool>, first: seq<set<Symbol>>, states: seq<State>, trail: Trail,
                                               p: Place, q: Place, t: Symbol, n: nat)
    requires g.Accepted() && |lambda| == |first| == g.nsymbol
    requires forall s :: 0 <= s < |states| ==> StateOk(g, states[s]) && ShiftsOk(g, states, s)
    requires LookaheadsOk(g, lambda, first, states, trail.fplp, trail.seeds, trail.fws)
    requires p in trail.seeds && t in trail.seeds[p] && FollowSets.ReachesIn(trail.fplp, p, q, n)
    requires q.1.rule < |g.rules| && g.rules[q.1.rule].lhs == g.start
    ensures t == 0
    decreases n
  {
    hide FirstSets.Heads, FirstSets.AllLambda, After, FollowSets.Flows, StateOk, ShiftsOk;
    if n == 0 {
      assert IsSeed(g, lambda, first, states, p.0, p.1, t);
      NothingPredictsStart(g, q.1.rule);
    } else {
      BeforeLast(trail.fplp, p, q, n);
      var r :| FollowSets.ReachesIn(trail.fplp, p, r, n - 1) && r in trail.fplp && q in trail.fplp[r];
      assert ClosureLink(g, lambda, states, r, q) || ShiftLink(g, states, r, q);
      NothingPredictsStart(g, q.1.rule);
      OnlyEndFollowsStart(g, lambda, first, states, trail, p, r, t, n - 1);
    }
  }

  lemma NothingPredictsStart(g: Grammar, r: nat)
    requires g.Accepted() && r < |g.rules| && g.rules[r].lhs == g.start
    ensures forall d :: !Predicts(g, d, r)
  {
  }

  lemma {:induction false} BeforeLast(fplp: map<Place, seq<Place>>, p: Place, q: Place, n: nat)
    requires n > 0 && FollowSets.ReachesIn(fplp, p, q, n)
    ensures exists r :: FollowSets.ReachesIn(fplp, p, r, n - 1) && r in fplp && q in fplp[r]
    decreases n
  {
    var x :| x in fplp[p] && FollowSets.ReachesIn(fplp, x, q, n - 1);
    if n == 1 {
      assert FollowSets.ReachesIn(fplp, p, p, 0);
    } else {
      BeforeLast(fplp, x, q, n - 1);
      var r :| FollowSets.ReachesIn(fplp, x, r, n - 2) && r in fplp && q in fplp[r];
      assert FollowSets.ReachesIn(fplp, p, r, n - 1);
    }
  }

  /** A live reduce by a start rule is on the end marker. */
  lemma StartReducesAtEnd(g: Grammar, lambda: seq<bool>, first: seq<set<Symbol>>, states: seq<State>, trail: Trail, s: nat, a: Action)
    requires g.Accepted() && |lambda| == |first| == g.nsymbol
    requires forall i :: 0 <= i < |states| ==> StateOk(g, states[i]) && ShiftsOk(g, states, i)
    requires LookaheadsOk(g, lambda, first, states, trail.fplp, trail.seeds, trail.fws)
    requires s < |states| && a.kind == REDUCE && Belongs(g, states[s], s, trail.fws, a) && g.rules[a.arg].lhs == g.start
    ensures a.sp == 0
  {
    hide StateOk, ShiftsOk;
    var q: Place := (s, Config(a.arg, |g.rules[a.arg].rhs|));
    assert a.sp in trail.fws[q];
    assert FollowSets.Flows(trail.fplp, trail.seeds, q, a.sp);
    var p :| p in trail.seeds && a.sp in trail.seeds[p] && FollowSets.Reaches(trail.fplp, p, q);
    var n: nat :| FollowSets.ReachesIn(trail.fplp, p, q, n);
    OnlyEndFollowsStart(g, lambda, first, states, trail, p, q, a.sp, n);
  }

  /** Two live reduces by one rule are on two different symbols. */
  lemma {:induction false} CountIsSpread(acts: seq<Action>, k: nat, r: nat)
    requires k <= |acts|
    ensures Count(acts, k, r) >= 1 ==> exists i :: k <= i < |acts| && Reduces(acts[i], r)
    ensures Count(acts, k, r) >= 2 ==> exists i, j :: k <= i < j < |acts| && Reduces(acts[i], r) && Reduces(acts[j], r)
    decreases |acts| - k
  {
    if k < |acts| { CountIsSpread(acts, k + 1, r); }
  }

  /** A default reduce is one the state can do, and not by a start rule. */
  lemma DefaultIsPossible(g: Grammar, lambda: seq<bool>, first: seq<set<Symbol>>, states: seq<State>, trail: Trail, s: nat, acts: seq<Action>, rb: nat)
    requires g.Accepted() && |lambda| == |first| == g.nsymbol
    requires forall i :: 0 <= i < |states| ==> StateOk(g, states[i]) && ShiftsOk(g, states, i)
    requires LookaheadsOk(g, lambda, first, states, trail.fplp, trail.seeds, trail.fws) && s < |states|
    requires OneLive(acts) && forall a :: a in acts && Live(a) ==> Belongs(g, states[s], s, trail.fws, a)
    requires Count(acts, 0, rb) >= 2
    ensures CanReduce(g, states, s, rb) && g.rules[rb].lhs != g.start
  {
    hide StateOk, ShiftsOk, LookaheadsOk;
    CountIsSpread(acts, 0, rb);
    var i, j :| 0 <= i < j < |acts| && Reduces(acts[i], rb) && Reduces(acts[j], rb);
    assert acts[i] in acts && acts[j] in acts;
    assert acts[i].sp != acts[j].sp;
    if g.rules[rb].lhs == g.start {
      StartReducesAtEnd(g, lambda, first, states, trail, s, acts[i]);
      StartReducesAtEnd(g, lambda, first, states, trail, s, acts[j]);
    }
  }

  /** What a terminal lookup can give. */
  lemma TerminalLookup(g: Grammar, lambda: seq<bool>, first: seq<set<Symbol>>, states: seq<State>, trail: Trail,
                       s: nat, acts: seq<Action>, best: Option<nat>, x: nat)
    requires g.Accepted() && |lambda| == |first| == g.nsymbol
    requires forall i :: 0 <= i < |states| ==> StateOk(g, states[i]) && ShiftsOk(g, states, i)
    requires LookaheadsOk(g, lambda, first, states, trail.fplp, trail.seeds, trail.fws) && s < |states| && x < g.nterminal
    requires OneLive(acts) && forall a :: a in acts && Live(a) ==> Belongs(g, states[s], s, trail.fws, a)
    requires IsDefault(acts, best)
    ensures CodeSound(g, states, TableCode(SizesOf(g, |states|), acts, best, x), s, x)
  {
    hide StateOk, LookaheadsOk, OneLive;
    assert ShiftsOk(g, states, s);
    LiveForIsIn(acts, x);
    match LiveFor(acts, x)
    case Some(a) =>
      assert Belongs(g, states[s], s, trail.fws, a);
      if a.kind == REDUCE && g.rules[a.arg].lhs == g.start {
        StartReducesAtEnd(g, lambda, first, states, trail, s, a);
      }
    case None =>
      if best.Some? {
        DefaultIsPossible(g, lambda, first, states, trail, s, acts, best.value);
      }
  }

  /** What a nonterminal lookup gives where there is a transition, and at the start. */
  lemma NonterminalLookup(g: Grammar, states: seq<State>, s: nat, fws: map<Place, set<Symbol>>, acts: seq<Action>, best: Option<nat>, a: Action)
    requires g.Accepted() && s < |states| && StateOk(g, states[s]) && ShiftsOk(g, states, s)
    requires forall b :: b in acts && Live(b) ==> Belongs(g, states[s], s, fws, b)
    requires Belongs(g, states[s], s, fws, a) && a.kind != REDUCE && g.IsNonterminal(a.sp) && SomeLive(acts, a.sp)
    ensures TableCode(SizesOf(g, |states|), acts, best, a.sp) == Code(SizesOf(g, |states|), a)
  {
    hide StateOk;
    LiveForIsIn(acts, a.sp);
    assert LiveFor(acts, a.sp).Some?;
    var b := LiveFor(acts, a.sp).value;
    assert Belongs(g, states[s], s, fws, b);
    NoShiftOnStart(g, states, s);
    if a.kind == SHIFT && b.kind == SHIFT {
      SameShift(states[s].shifts, Shift(a.sp, a.arg), Shift(b.sp, b.arg));
    }
  }

  /** Generated tables are sound. */
  lemma GeneratedIsSound(g: Grammar, lambda: seq<bool>, first: seq<set<Symbol>>, states: seq<State>, t: Tables, trail: Trail)
    requires g.Accepted() && |lambda| == |first| == g.nsymbol
    requires IsLr0(g, states) && Explains(g, lambda, first, states, t, trail)
    ensures TablesSound(g, states, t)
  {
    hide StateOk, ShiftsOk, LookaheadsOk, Complete, OneLive, TableCode, Belongs, CodeSound, StateExplained, IsDefault, SomeLive, DistinctBases, HasParent, Tables.FindShiftAction, Tables.FindReduceAction;
    AllShiftsOk(g, states);
    forall s: nat, x: nat | s < |states| && x < g.nterminal
      ensures CodeSound(g, states, t.FindShiftAction(s, x), s, x)
    {
      ExplainedLive(g, states, s, trail);
      TerminalLookup(g, lambda, first, states, trail, s, trail.acts[s], trail.best[s], x);
    }
    forall s: nat, sh | s < |states| && sh in states[s].shifts && g.IsNonterminal(sh.sp)
      ensures t.FindReduceAction(s, sh.sp) == sh.target
    {
      GotoLookup(g, states, t, trail, s, sh);
    }
    AcceptLookup(g, states, t, trail);
  }

  lemma AllShiftsOk(g: Grammar, states: seq<State>)
    requires IsLr0(g, states)
    ensures forall s :: 0 <= s < |states| ==> StateOk(g, states[s]) && ShiftsOk(g, states, s)
  {
    hide StateOk, ShiftsOk, DistinctBases, HasParent;
    forall s | 0 <= s < |states|
      ensures ShiftsOk(g, states, s)
    {
      assert Complete(g, states, s);
    }
  }

  lemma ExplainedLive(g: Grammar, states: seq<State>, s: nat, trail: Trail)
    requires s < |states| == |trail.lists| == |trail.acts| == |trail.best|
    requires StateExplained(g, states[s], s, trail.fws, trail.lists[s], trail.acts[s], trail.best[s])
    ensures OneLive(trail.acts[s]) && IsDefault(trail.acts[s], trail.best[s])
    ensures forall a :: a in trail.acts[s] && Live(a) ==> Belongs(g, states[s], s, trail.fws, a)
    ensures forall a :: Belongs(g, states[s], s, trail.fws, a) ==> SomeLive(trail.acts[s], a.sp)
  {
    hide Belongs, OneLive, SomeLive, IsDefault;
    LiveBelong(g, states[s], s, trail.fws, trail.lists[s], trail.acts[s]);
    ChampionsAreOne(g, trail.lists[s], trail.acts[s]);
  }

  lemma GotoLookup(g: Grammar, states: seq<State>, t: Tables, trail: Trail, s: nat, sh: Shift)
    requires g.Accepted() && s < |states| == |trail.lists| == |trail.acts| == |trail.best|
    requires StateOk(g, states[s]) && ShiftsOk(g, states, s)
    requires StateExplained(g, states[s], s, trail.fws, trail.lists[s], trail.acts[s], trail.best[s])
    requires TablesDo(g, |states|, t, trail.acts, trail.best)
    requires sh in states[s].shifts && g.IsNonterminal(sh.sp)
    ensures t.FindReduceAction(s, sh.sp) == sh.target
  {
    hide StateOk, ShiftsOk, TableCode, StateExplained, SomeLive, Tables.FindReduceAction, Tables.FindShiftAction;
    ExplainedLive(g, states, s, trail);
    var a := Action(sh.sp, SHIFT, sh.target);
    assert Belongs(g, states[s], s, trail.fws, a);
    NonterminalLookup(g, states, s, trail.fws, trail.acts[s], trail.best[s], a);
  }

  lemma AcceptLookup(g: Grammar, states: seq<State>, t: Tables, trail: Trail)
    requires g.Accepted() && 0 < |states| == |trail.lists| == |trail.acts| == |trail.best|
    requires StateOk(g, states[0]) && ShiftsOk(g, states, 0)
    requires StateExplained(g, states[0], 0, trail.fws, trail.lists[0], trail.acts[0], trail.best[0])
    requires TablesDo(g, |states|, t, trail.acts, trail.best)
    ensures t.FindReduceAction(0, g.start) == t.AcceptAction()
  {
    hide StateOk, ShiftsOk, TableCode, StateExplained, SomeLive, Tables.FindReduceAction, Tables.FindShiftAction;
    ExplainedLive(g, states, 0, trail);
    var a := Action(g.start, ACCEPT, 0);
    assert Belongs(g, states[0], 0, trail.fws, a);
    NonterminalLookup(g, states, 0, trail.fws, trail.acts[0], trail.best[0], a);
  }

  // ---- Stacks ----

  /** One entry of the parser stack. */
  datatype Entry = Entry(stateno: nat, major: Symbol)

  /** The stack spells a path of the automaton from state 0. */
  ghost predicate IsPath(states: seq<State>, stk: seq<Entry>) {
    && (stk != [] ==> stk[0] == Entry(0, 0))
    && (forall i :: 0 <= i < |stk| ==> stk[i].stateno < |states|)
    && forall i :: 0 < i < |stk| ==> Shift(stk[i].major, stk[i].stateno) in states[stk[i - 1].stateno].shifts
  }

  function Flatten(ys: seq<Form>): Form {
    if ys == [] then [] else Flatten(ys[..|ys| - 1]) + ys[|ys| - 1]
  }

  /** ylds[i] is what the symbol at stack level i derives. */
  ghost predicate YieldsOk(g: Grammar, stk: seq<Entry>, ylds: seq<Form>) {
    && |ylds| == |stk|
    && (stk != [] ==> ylds[0] == [])
    && forall i :: 0 < i < |stk| ==> Derives(g, [stk[i].major], ylds[i])
  }

  /** The symbols of the top d levels. */
  function Top(stk: seq<Entry>, d: nat): Form
    requires d <= |stk|
  {
    seq<Symbol>(d, k requires 0 <= k < d => stk[|stk| - d + k].major)
  }

  /** With the dot of a configuration of the top state at d, exactly the symbols before the dot
      are on top, and the state under them has the configuration with the dot at the left. */
  lemma {:induction false} HandleOnTop(g: Grammar, states: seq<State>, stk: seq<Entry>, r: nat, d: nat)
    requires IsLr0(g, states) && IsPath(states, stk) && stk != [] && r < |g.rules| && d <= |g.rules[r].rhs|
    requires Config(r, d) in states[stk[|stk| - 1].stateno].configs
    ensures d < |stk| && Top(stk, d) == g.rules[r].rhs[..d]
    ensures Config(r, 0) in states[stk[|stk| - 1 - d].stateno].configs
    decreases d
  {
    hide IsLr0, Top;
    if d == 0 {
      assert Top(stk, 0) == [] by { TopNone(stk); }
    } else {
      var s := stk[|stk| - 1].stateno;
      DottedIsBasis(g, states, s, Config(r, d));
      if |stk| == 1 {
        StartHasNoDots(g, states, Config(r, d));
      } else {
        var below := stk[..|stk| - 1];
        var p := below[|below| - 1].stateno;
        var sh := Shift(stk[|stk| - 1].major, s);
        assert sh in states[p].shifts;
        ShiftedFrom(g, states, p, sh, Config(r, d));
        HandleOnTop(g, states, below, r, d - 1);
        TopStep(stk, d);
        assert g.rules[r].rhs[..d] == g.rules[r].rhs[..d - 1] + [g.rules[r].rhs[d - 1]];
      }
    }
  }

  lemma TopNone(stk: seq<Entry>)
    ensures Top(stk, 0) == []
  {
  }

  lemma TopStep(stk: seq<Entry>, d: nat)
    requires 0 < d < |stk|
    ensures Top(stk, d) == Top(stk[..|stk| - 1], d - 1) + [stk[|stk| - 1].major]
  {
  }

  lemma DottedIsBasis(g: Grammar, states: seq<State>, s: nat, c: Config)
    requires IsLr0(g, states) && s < |states| && c in states[s].configs && c.dot > 0
    ensures c in states[s].basis
  {
    hide Complete, IsClosureOf;
    assert StateOk(g, states[s]);
    assert c in Elements(states[s].configs);
    if c !in Elements(states[s].basis) {
      ClosureItemIsPredicted(g, Elements(states[s].basis), Elements(states[s].configs), c);
    }
  }

  lemma StartHasNoDots(g: Grammar, states: seq<State>, c: Config)
    requires IsLr0(g, states) && c in states[0].basis
    ensures c.dot == 0 && c.rule < |g.rules| && g.rules[c.rule].lhs == g.start
  {
    hide Complete, StateOk;
    assert c in Elements(states[0].basis);
  }

  /** A configuration in the basis of a shift's target is an advanced one of its source. */
  lemma ShiftedFrom(g: Grammar, states: seq<State>, p: nat, sh: Shift, c: Config)
    requires IsLr0(g, states) && p < |states| && sh in states[p].shifts
    requires sh.target < |states| ==> c in states[sh.target].basis
    ensures sh.target < |states| && c.dot > 0 && Config(c.rule, c.dot - 1) in states[p].configs
    ensures NextIs(g, Config(c.rule, c.dot - 1), sh.sp)
  {
    hide StateOk, DistinctBases, HasParent;
    assert ShiftsOk(g, states, p) by { assert Complete(g, states, p); }
    assert c in Elements(states[sh.target].basis);
    var b :| b in Elements(states[p].configs) && NextIs(g, b, sh.sp) && Advance(b) == c;
  }

  /** A state with a configuration of rule r, dot at the left, has a transition on its
      left-hand side, or is the start state and r a start rule. */
  lemma GotoExists(g: Grammar, states: seq<State>, s: nat, r: nat)
    requires g.Accepted() && IsLr0(g, states) && s < |states| && r < |g.rules| && Config(r, 0) in states[s].configs
    ensures if g.rules[r].lhs == g.start then s == 0 else HasShift(states[s], g.rules[r].lhs)
  {
    hide StateOk, DistinctBases, IsClosureOf, ShiftsOk;
    var c := Config(r, 0);
    assert StateOk(g, states[s]) && Complete(g, states, s);
    if c in states[s].basis {
      if s == 0 {
        StartHasNoDots(g, states, c);
        NothingPredictsStart(g, r);
      } else {
        NoLeftDotLater(g, states, s, c);
      }
    } else {
      PredictedBySome(g, states[s], c);
      var d :| d in states[s].configs && Predicts(g, d, r);
    }
    if g.rules[r].lhs == g.start { NothingPredictsStart(g, r); }
  }

  lemma PredictedBySome(g: Grammar, st: State, c: Config)
    requires StateOk(g, st) && c in st.configs && c !in st.basis
    ensures exists d :: d in st.configs && Predicts(g, d, c.rule)
  {
    hide IsClosureOf;
    ClosureItemIsPredicted(g, Elements(st.basis), Elements(st.configs), c);
    var d :| d in Elements(st.configs) && Predicts(g, d, c.rule);
    assert d in st.configs;
  }

  lemma NoLeftDotLater(g: Grammar, states: seq<State>, s: nat, c: Config)
    requires IsLr0(g, states) && 0 < s < |states| && c in states[s].basis
    ensures c.dot > 0
  {
    hide StateOk, Complete, DistinctBases;
    assert HasParent(states, s, 0);
    var p, sh :| 0 <= p < s && p < |states| && sh in states[p].shifts && sh.target == s;
    ShiftedFrom(g, states, p, sh, c);
  }

  /** Only the bottom of the stack is state 0. */
  lemma StartOnlyAtBottom(g: Grammar, states: seq<State>, stk: seq<Entry>, i: nat)
    requires IsLr0(g, states) && IsPath(states, stk) && i < |stk| && stk[i].stateno == 0
    ensures i == 0
  {
    hide StateOk, Complete, DistinctBases, HasParent;
    if i > 0 {
      var sh := Shift(stk[i].major, 0);
      var c := BasisMember(g, states, stk[i - 1].stateno, sh);
      ShiftedFrom(g, states, stk[i - 1].stateno, sh, c);
      StartHasNoDots(g, states, c);
    }
  }

  lemma BasisMember(g: Grammar, states: seq<State>, p: nat, sh: Shift) returns (c: Config)
    requires IsLr0(g, states) && p < |states| && sh in states[p].shifts
    ensures sh.target < |states| && c in states[sh.target].basis
  {
    hide StateOk, DistinctBases, HasParent;
    assert ShiftsOk(g, states, p) by { assert Complete(g, states, p); }
    c :| c in GotoSet(g, Elements(states[p].configs), sh.sp);
    assert c in Elements(states[sh.target].basis);
  }

  // ---- Derivations of stacked symbols ----

  lemma {:induction false} FlattenConcat(a: seq<Form>, b: seq<Form>)
    ensures Flatten(a + b) == Flatten(a) + Flatten(b)
  {
    if b == [] {
      assert a + b == a;
    } else {
      assert (a + b)[..|a + b| - 1] == a + b[..|b| - 1];
      FlattenConcat(a, b[..|b| - 1]);
    }
  }

  lemma {:induction false} DerivesAll(g: Grammar, u: Form, ys: seq<Form>)
    requires |u| == |ys| && forall k :: 0 <= k < |u| ==> Derives(g, [u[k]], ys[k])
    ensures Derives(g, u, Flatten(ys))
  {
    hide Derives;
    if u == [] {
      DerivesRefl(g, []);
    } else {
      var n := |u| - 1;
      DerivesAll(g, u[..n], ys[..n]);
      DerivesConcat(g, u[..n], Flatten(ys[..n]), [u[n]], ys[n]);
      assert u == u[..n] + [u[n]];
    }
  }

  /** The left-hand side of a rule derives what the handle on top of the stack derives. */
  lemma ReduceDerives(g: Grammar, stk: seq<Entry>, ylds: seq<Form>, r: nat)
    requires YieldsOk(g, stk, ylds) && r < |g.rules| && |g.rules[r].rhs| < |stk|
    requires Top(stk, |g.rules[r].rhs|) == g.rules[r].rhs
    ensures Derives(g, [g.rules[r].lhs], Flatten(ylds[|stk| - |g.rules[r].rhs|..]))
  {
    hide Derives;
    var rhs := g.rules[r].rhs;
    var m := |stk| - |rhs|;
    forall k | 0 <= k < |rhs|
      ensures Derives(g, [rhs[k]], ylds[m..][k])
    {
      assert Top(stk, |rhs|)[k] == stk[m + k].major;
    }
    DerivesAll(g, rhs, ylds[m..]);
    DerivesByRule(g, r);
    DerivesTrans(g, [g.rules[r].lhs], rhs, Flatten(ylds[m..]));
  }

  lemma PushOk(g: Grammar, states: seq<State>, stk: seq<Entry>, ylds: seq<Form>, e: Entry, y: Form)
    requires IsPath(states, stk) && YieldsOk(g, stk, ylds) && stk != [] && e.stateno < |states|
    requires Shift(e.major, e.stateno) in states[stk[|stk| - 1].stateno].shifts && Derives(g, [e.major], y)
    ensures IsPath(states, stk + [e]) && YieldsOk(g, stk + [e], ylds + [y])
    ensures Flatten(ylds + [y]) == Flatten(ylds) + y
  {
    hide Derives;
    assert (ylds + [y])[..|ylds|] == ylds;
  }

  lemma PopOk(g: Grammar, states: seq<State>, stk: seq<Entry>, ylds: seq<Form>, k: nat)
    requires IsPath(states, stk) && YieldsOk(g, stk, ylds) && k <= |stk|
    ensures IsPath(states, stk[..k]) && YieldsOk(g, stk[..k], ylds[..k])
    ensures Flatten(ylds) == Flatten(ylds[..k]) + Flatten(ylds[k..])
  {
    hide Derives;
    assert ylds == ylds[..k] + ylds[k..];
    FlattenConcat(ylds[..k], ylds[k..]);
  }

  /** Shifted symbols are terminals or left-hand sides that some rule mentions: never the end
      marker. */
  lemma NoShiftOnEnd(g: Grammar, states: seq<State>, s: nat, sh: Shift)
    requires g.Accepted() && IsLr0(g, states) && s < |states| && sh in states[s].shifts
    ensures sh.sp != 0 && sh.target < |states|
  {
    var c := BasisMember(g, states, s, sh);
    ShiftedFrom(g, states, s, sh, c);
  }

  /** Reducing by rule r in the top state: the handle is on top; under it either the start state
      alone, and r is a start rule, or a state with the transition the tables give. */
  lemma ReduceOk(g: Grammar, states: seq<State>, t: Tables, stk: seq<Entry>, r: nat)
    requires g.Accepted() && IsLr0(g, states) && TablesSound(g, states, t)
    requires IsPath(states, stk) && stk != [] && CanReduce(g, states, stk[|stk| - 1].stateno, r)
    ensures var n, lhs := |g.rules[r].rhs|, g.rules[r].lhs;
            && n < |stk| && Top(stk, n) == g.rules[r].rhs
            && var u := stk[|stk| - 1 - n].stateno;
               if lhs == g.start then |stk| - 1 - n == 0 && t.FindReduceAction(u, lhs) == t.AcceptAction()
               else 0 <= t.FindReduceAction(u, lhs) < |states| && Shift(lhs, t.FindReduceAction(u, lhs)) in states[u].shifts
  {
    hide IsLr0, Top, Tables.FindReduceAction, Tables.FindShiftAction, CodeSound;
    var n, lhs := |g.rules[r].rhs|, g.rules[r].lhs;
    HandleOnTop(g, states, stk, r, n);
    assert g.rules[r].rhs[..n] == g.rules[r].rhs;
    var u := stk[|stk| - 1 - n].stateno;
    GotoExists(g, states, u, r);
    if lhs == g.start {
      StartOnlyAtBottom(g, states, stk, |stk| - 1 - n);
    } else {
      var k :| 0 <= k < |states[u].shifts| && states[u].shifts[k].sp == lhs;
      NoShiftOnEnd(g, states, u, states[u].shifts[k]);
      assert g.RuleOk(g.rules[r]);
      assert states[u].shifts[k] == Shift(lhs, t.FindReduceAction(u, lhs));
    }
  }

  // ---- The machine ----

  /** How one call of Parse ended: nothing to do, token shifted, input accepted, syntax error with
      the stack emptied, syntax error with only the token thrown away, stack overflow, or still
      reducing when the step bound was reached. */
  datatype Outcome = Idle | Shifted | Accepted | Failed | Discarded | Overflow | Unfinished

  /** What one step makes of a stack: another stack, or the end of the call. */
  datatype Stepped = Go(stk: seq<Entry>) | End(outcome: Outcome, stk: seq<Entry>)

  ghost predicate Readable(t: Tables, stk: seq<Entry>) {
    t.Shape() && stk != [] && stk[|stk| - 1].stateno < t.nstate
  }

  /** The handle of rule r comes off a stack and, by the tables, its left-hand side goes on. */
  ghost function ReduceStep(g: Grammar, t: Tables, depth: nat, stk: seq<Entry>, r: nat): Stepped
    requires r < |g.rules|
  {
    var size := |g.rules[r].rhs|;
    if size > |stk| || !Readable(t, stk[..|stk| - size]) then End(Unfinished, stk)
    else
      var below := stk[..|stk| - size];
      var act := t.FindReduceAction(below[|below| - 1].stateno, g.rules[r].lhs);
      if 0 <= act < t.nstate then
        if |below| < depth then Go(below + [Entry(act, g.rules[r].lhs)]) else End(Overflow, [])
      else if act == t.AcceptAction() then End(Accepted, [])
      else Go(below)
  }

  /** One lookup of a token and what it says. */
  ghost function OneStep(g: Grammar, t: Tables, depth: nat, stk: seq<Entry>, x: nat): Stepped {
    if !Readable(t, stk) then End(Unfinished, stk)
    else
      var act := t.FindShiftAction(stk[|stk| - 1].stateno, x);
      if 0 <= act < t.nstate then
        if |stk| < depth then End(Shifted, stk + [Entry(act, x)]) else End(Overflow, [])
      else if t.nstate <= act < t.nstate + |g.rules| then ReduceStep(g, t, depth, stk, act - t.nstate)
      else ErrorStep(g, stk)
  }

  /** A syntax error: on top of the error symbol only the token goes, otherwise the whole stack. */
  ghost function ErrorStep(g: Grammar, stk: seq<Entry>): Stepped
    requires stk != []
  {
    if stk[|stk| - 1].major == g.errsym then End(Discarded, stk) else End(Failed, [])
  }

  /** A call of the parser as the tables tell it: steps until a token is dealt with. */
  ghost function Drive(g: Grammar, t: Tables, depth: nat, stk: seq<Entry>, x: nat, fuel: nat): Stepped
    decreases fuel
  {
    if fuel == 0 then End(Unfinished, stk)
    else
      match OneStep(g, t, depth, stk, x)
      case Go(next) => Drive(g, t, depth, next, x, fuel - 1)
      case End(outcome, last) => End(outcome, last)
  }

  lemma DriveMore(g: Grammar, t: Tables, depth: nat, stk: seq<Entry>, x: nat, fuel: nat)
    requires fuel > 0
    ensures match OneStep(g, t, depth, stk, x)
            case Go(next) => Drive(g, t, depth, stk, x, fuel) == Drive(g, t, depth, next, x, fuel - 1)
            case End(outcome, last) => Drive(g, t, depth, stk, x, fuel) == End(outcome, last)
  {
    hide OneStep;
  }

  lemma DriveNone(g: Grammar, t: Tables, depth: nat, stk: seq<Entry>, x: nat)
    ensures Drive(g, t, depth, stk, x, 0) == End(Unfinished, stk)
  {
  }

  lemma OneStepIs(g: Grammar, t: Tables, depth: nat, stk: seq<Entry>, x: nat, act: int)
    requires Readable(t, stk) && act == t.FindShiftAction(stk[|stk| - 1].stateno, x) && 0 <= act
    ensures act < t.nstate ==> OneStep(g, t, depth, stk, x) == if |stk| < depth then End(Shifted, stk + [Entry(act, x)]) else End(Overflow, [])
    ensures t.nstate <= act < t.nstate + |g.rules| ==> OneStep(g, t, depth, stk, x) == ReduceStep(g, t, depth, stk, act - t.nstate)
    ensures act >= t.nstate + |g.rules| ==> OneStep(g, t, depth, stk, x) == ErrorStep(g, stk)
  {
    hide ReduceStep, Tables.FindShiftAction, Tables.FindReduceAction;
  }

  class Parser {
    const g: Grammar
    const t: Tables
    ghost const states: seq<State>
    var yyidx: int
    var yyerrcnt: int
    const yystack: array<Entry>
    ghost var ylds: seq<Form>    // what each stacked symbol derives
    ghost var tokens: Form       // tokens shifted since the last (re)initialisation

    ghost predicate GeneratorOk() {
      g.Accepted() && IsLr0(g, states) && TablesSound(g, states, t)
    }

    ghost function Stack(): seq<Entry>
      reads this, yystack
    {
      if -1 <= yyidx < yystack.Length then yystack[..yyidx + 1] else []
    }

    ghost predicate StackOk()
      reads this, yystack
    {
      && -1 <= yyidx < yystack.Length
      && IsPath(states, Stack()) && YieldsOk(g, Stack(), ylds)
      && (g.NoErrorRule() ==> forall i :: 0 <= i <= yyidx ==> yystack[i].major != g.errsym)
    }

    ghost predicate Valid()
      reads this, yystack
    {
      GeneratorOk() && 0 < yystack.Length && StackOk() && (yyidx >= 0 ==> tokens == Flatten(ylds))
    }

    /** ParseAlloc, for a given YYSTACKDEPTH. */
    constructor (g: Grammar, t: Tables, ghost states: seq<State>, depth: nat)
      requires g.Accepted() && IsLr0(g, states) && TablesSound(g, states, t) && 0 < depth
      ensures Valid() && yyidx == -1 && yystack.Length == depth && this.g == g && this.t == t && this.states == states && fresh(yystack)
    {
      this.g, this.t, this.states := g, t, states;
      yystack := new Entry[depth](_ => Entry(0, 0));
      yyidx, yyerrcnt := -1, -1;
      ylds, tokens := [], [];
    }

    /** Pops the whole stack (on overflow, failure and acceptance). */
    method PopAll()
      requires StackOk()
      modifies this`yyidx, this`ylds
      ensures yyidx == -1 && StackOk()
    {
      while yyidx >= 0
        invariant -1 <= yyidx < yystack.Length
      {
        yyidx := yyidx - 1;
      }
      ylds := [];
    }

    /** yy_shift: pushes, or empties the stack if it is full. */
    method YyShift(newState: nat, major: Symbol, ghost s: nat, ghost y: Form)
      requires 0 <= yyidx < yystack.Length && yystack[yyidx].stateno == s
      requires s < |states| && newState < |states| && Shift(major, newState) in states[s].shifts
      requires GeneratorOk() && StackOk() && (g.NoErrorRule() ==> major != g.errsym) && Derives(g, [major], y)
      modifies this`yyidx, this`ylds, yystack
      ensures StackOk()
      ensures yyidx == if old(yyidx) + 1 < yystack.Length then old(yyidx) + 1 else -1
      ensures yyidx >= 0 ==> Stack() == old(Stack()) + [Entry(newState, major)] && Flatten(ylds) == old(Flatten(ylds)) + y
    {
      hide Derives, TablesSound, IsLr0, IsPath, YieldsOk, Flatten;
      yyidx := yyidx + 1;
      if yyidx >= yystack.Length {
        yyidx := yyidx - 1;
        PopAll();
        return;
      }
      PushOk(g, states, yystack[..yyidx], ylds, Entry(newState, major), y);
      yystack[yyidx] := Entry(newState, major);
      ylds := ylds + [y];
      assert Stack() == old(Stack()) + [Entry(newState, major)];
    }

    /** yy_reduce: the handle comes off and its left-hand side goes on, or the parser accepts. */
    method YyReduce(r: nat) returns (accepted: bool)
      requires Valid() && yyidx >= 0 && CanReduce(g, states, yystack[yyidx].stateno, r)
      modifies this`yyidx, this`ylds, yystack
      ensures Valid()
      ensures accepted <==> g.rules[r].lhs == g.start
      ensures accepted ==> yyidx == -1 && Derives(g, [g.start], tokens)
      ensures r < |g.rules| && ReduceStep(g, t, yystack.Length, old(Stack()), r)
        == if accepted then End(Outcome.Accepted, []) else if yyidx < 0 then End(Overflow, []) else Go(Stack())
    {
      hide Derives, TablesSound, IsLr0, IsPath, YieldsOk, Flatten, Top, CanReduce, Tables.Shape, Tables.FindReduceAction, Tables.FindShiftAction;
      ghost var stk, below := Stack(), ylds;
      StackFacts();
      RuleInRange(g, states, stk[yyidx].stateno, r);
      var goto, size := g.rules[r].lhs, |g.rules[r].rhs|;
      ReduceOk(g, states, t, stk, r);
      ReduceDerives(g, stk, ylds, r);
      PopOk(g, states, stk, ylds, |stk| - size);
      yyidx := yyidx - size;
      ylds := ylds[..|stk| - size];
      assert Stack() == stk[..|stk| - size];
      StackFacts();
      var act := t.FindReduceAction(yystack[yyidx].stateno, goto);
      accepted := false;
      if act < t.nstate {
        YyShift(act, goto, yystack[yyidx].stateno, Flatten(below[|stk| - size..]));
      } else if act == t.AcceptAction() {
        FlattenBottom(ylds);
        assert [] + Flatten(below[|stk| - size..]) == Flatten(below[|stk| - size..]);
        PopAll();
        accepted := true;
      }
    }

    /** One round of the loop in Parse: Unfinished means that there are more to come. */
    method Round(yymajor: nat) returns (outcome: Outcome)
      requires Valid() && yyidx >= 0 && yymajor < g.nterminal
      modifies this, yystack
      ensures Valid() && outcome != Idle
      ensures match outcome
              case Shifted => yymajor != 0 && yyidx >= 0 && tokens == old(tokens) + [yymajor]
              case Accepted => yymajor == 0 && yyidx == -1 && Derives(g, [g.start], old(tokens))
              case Unfinished => yyidx >= 0 && tokens == old(tokens)
              case Discarded => yyidx >= 0 && tokens == old(tokens) && !g.NoErrorRule()
              case _ => yyidx == -1
      ensures OneStep(g, t, yystack.Length, old(Stack()), yymajor) == if outcome == Unfinished then Go(Stack()) else End(outcome, Stack())
    {
      hide Derives, TablesSound, IsLr0, IsPath, YieldsOk, Flatten, CanReduce, ReduceStep, OneStep, Tables.Shape, Tables.FindReduceAction, Tables.FindShiftAction;
      StackFacts();
      var s := yystack[yyidx].stateno;
      var act := t.FindShiftAction(s, yymajor);
      LookupOk(s, yymajor);
      OneStepIs(g, t, yystack.Length, Stack(), yymajor, act);
      if act < t.nstate {
        DerivesRefl(g, [yymajor]);
        YyShift(act, yymajor, s, [yymajor]);
        yyerrcnt := yyerrcnt - 1;
        if yyidx < 0 { return Overflow; }
        tokens := tokens + [yymajor];
        return Shifted;
      } else if act < t.nstate + t.nrule {
        var accepted := YyReduce(act - t.nstate);
        if accepted { return Accepted; }
        if yyidx < 0 { return Overflow; }
        return Unfinished;
      } else if act == t.ErrorAction() {
        var kept := SyntaxError(yymajor);
        return if kept then Discarded else Failed;
      } else {
        assert false;
      }
    }

    /** Parse: one token (0 is the end of input). Every run is covered up to `fuel` rounds. */
    method Parse(yymajor: nat, fuel: nat) returns (outcome: Outcome)
      requires Valid() && yymajor < g.nterminal
      modifies this, yystack
      ensures Valid()
      ensures outcome == Idle <==> old(yyidx) < 0 && yymajor == 0
      ensures var fed := if old(yyidx) < 0 then [] else old(tokens);
              match outcome
              case Idle => yyidx == -1
              case Shifted => yymajor != 0 && yyidx >= 0 && tokens == fed + [yymajor]
              case Accepted => yymajor == 0 && yyidx == -1 && Derives(g, [g.start], fed)
              case Unfinished => yyidx >= 0 && tokens == fed
              case Discarded => yyidx >= 0 && tokens == fed && !g.NoErrorRule()
              case _ => yyidx == -1
      ensures outcome != Idle ==> End(outcome, Stack()) == Drive(g, t, yystack.Length, if old(yyidx) < 0 then [Entry(0, 0)] else old(Stack()), yymajor, fuel)
    {
      hide Derives, TablesSound, IsLr0, IsPath, YieldsOk, Flatten, OneStep, Drive;
      if yyidx < 0 {
        if yymajor == 0 { return Idle; }
        yyidx, yyerrcnt := 0, -1;
        yystack[0] := Entry(0, 0);
        ylds, tokens := [[]], [];
        BottomOk(g, states, t, [Entry(0, 0)]);
        assert Stack() == [Entry(0, 0)];
      }
      ghost var fed, start := tokens, Stack();
      var n := 0;
      while n < fuel
        invariant Valid() && yyidx >= 0 && tokens == fed && n <= fuel
        invariant Drive(g, t, yystack.Length, Stack(), yymajor, fuel - n) == Drive(g, t, yystack.Length, start, yymajor, fuel)
      {
        n := n + 1;
        DriveMore(g, t, yystack.Length, Stack(), yymajor, fuel - n + 1);
        outcome := Round(yymajor);
        if outcome != Unfinished { return; }
      }
      DriveNone(g, t, yystack.Length, Stack(), yymajor);
      outcome := Unfinished;
    }

    /** The syntax error branch. With the error symbol on top the token is thrown away and the
        stack stays. Otherwise a state that shifts the error symbol is looked for; but this is a
        nonterminal and looked up among the shifts of terminals, so no state ever has it and the
        whole stack is popped. */
    method SyntaxError(yymajor: nat) returns (kept: bool)
      requires Valid() && yyidx >= 0
      modifies this`yyidx, this`ylds, this`yyerrcnt
      ensures Valid() && (kept <==> old(yystack[yyidx].major) == g.errsym)
      ensures if kept then yyidx == old(yyidx) && ylds == old(ylds) else yyidx == -1
      ensures kept ==> !g.NoErrorRule()
    {
      hide Derives, IsLr0, IsPath, YieldsOk, Flatten, Tables.FindShiftAction, Tables.FindReduceAction, CodeSound;
      var yymx := yystack[yyidx].major;
      StackFacts();
      yyerrcnt := 3;
      kept := yymx == g.errsym;
      if kept { return; }
      var shifts := false;
      while yyidx >= 0 && !shifts
        invariant -1 <= yyidx < yystack.Length && !shifts
        invariant ylds == old(ylds) && GeneratorOk()
        invariant forall i :: 0 <= i <= yyidx ==> yystack[i].stateno < |states|
        decreases yyidx
      {
        var act := t.FindShiftAction(yystack[yyidx].stateno, g.errsym);
        if act < t.nstate {
          shifts := true;
        } else {
          yyidx := yyidx - 1;
        }
      }
      ylds := [];
      assert Stack() == [];
      EmptyOk(g, states);
    }

    lemma EndIsTerminal()
      requires Valid()
      ensures 0 < g.nterminal
    {
      hide IsLr0, TablesSound, Derives;
    }

    lemma StackFacts()
      requires GeneratorOk() && StackOk()
      ensures |Stack()| == |ylds| == yyidx + 1 && (yyidx >= 0 ==> ylds[0] == [])
      ensures forall i :: 0 <= i <= yyidx ==> yystack[i] == Stack()[i] && yystack[i].stateno < |states|
      ensures t.Shape() && t.nstate == |states| && t.nrule == |g.rules|
    {
      hide IsLr0, Derives, CodeSound, Flatten;
    }

    /** What the looked-up action lets the machine do. */
    lemma LookupOk(s: nat, x: nat)
      requires GeneratorOk() && s < |states| && x < g.nterminal
      ensures var c := t.FindShiftAction(s, x);
              if c < t.nstate then c >= 0 && Shift(x, c) in states[s].shifts && x != 0 && x != g.errsym
              else if c < t.nstate + t.nrule then
                CanReduce(g, states, s, c - t.nstate) && (g.rules[c - t.nstate].lhs == g.start ==> x == 0)
              else c == t.ErrorAction()
    {
      hide IsLr0, CanReduce, Tables.FindShiftAction, Tables.FindReduceAction;
      var c := t.FindShiftAction(s, x);
      assert CodeSound(g, states, c, s, x);
      if 0 <= c < t.nstate {
        NoShiftOnEnd(g, states, s, Shift(x, c));
      }
    }
  }

  lemma RuleInRange(g: Grammar, states: seq<State>, s: nat, r: nat)
    requires CanReduce(g, states, s, r)
    ensures s < |states| && r < |g.rules|
  {
  }

  lemma FlattenBottom(ylds: seq<Form>)
    requires |ylds| == 1 ==> ylds[0] == []
    ensures |ylds| == 1 ==> Flatten(ylds) == []
  {
    if |ylds| == 1 {
      assert ylds[..0] == [];
    }
  }

  lemma BottomOk(g: Grammar, states: seq<State>, t: Tables, stk: seq<Entry>)
    requires stk == [Entry(0, 0)] && TablesSound(g, states, t)
    ensures IsPath(states, stk) && YieldsOk(g, stk, [[]]) && Flatten([[]]) == []
  {
  }

  lemma EmptyOk(g: Grammar, states: seq<State>)
    ensures IsPath(states, []) && YieldsOk(g, [], [])
  {
  }

  // ---- Whole runs ----

  /** What the generator makes of a grammar, with all it found out on the way. */
  datatype Generated = Generated(g: Grammar, lambda: seq<bool>, first: seq<set<Symbol>>, states: seq<State>, t: Tables, trail: Trail)

  /** Tables as the generator makes them. */
  ghost predicate Sound(m: Generated) {
    && m.g.Accepted() && ExactSets(m.g, m.lambda, m.first) && IsLr0(m.g, m.states)
    && Explains(m.g, m.lambda, m.first, m.states, m.t, m.trail) && TablesSound(m.g, m.states, m.t)
  }

  /** Feeding the parser tokens until it accepts on the last or fails: at most `fuel` steps for
      each token, and `left` for the first. */
  ghost predicate ParseFrom(g: Grammar, t: Tables, depth: nat, fuel: nat, left: nat, stk: seq<Entry>, input: seq<Symbol>)
    decreases |input|, 0
  {
    input != [] && AfterToken(g, t, depth, fuel, Drive(g, t, depth, stk, input[0], left), input[1..])
  }

  /** Going on with what the first token led to. */
  ghost predicate AfterToken(g: Grammar, t: Tables, depth: nat, fuel: nat, s: Stepped, rest: seq<Symbol>)
    decreases |rest|, 1
  {
    if s.Go? then false
    else if s.outcome == Shifted then ParseFrom(g, t, depth, fuel, fuel, s.stk, rest)
    else s.outcome == Accepted && rest == []
  }

  /** A fresh parser accepts the input, its end marked. It cannot accept nothing: the end marker
      alone is ignored while nothing is stacked. */
  ghost predicate Parses(g: Grammar, t: Tables, depth: nat, fuel: nat, input: seq<Symbol>) {
    input != [] && ParseFrom(g, t, depth, fuel, fuel, [Entry(0, 0)], input + [0])
  }

  /** A whole run, from grammar to verdict: a fresh parser with generated tables is given the
      tokens one by one and then the end marker. If it accepts, the grammar derives the input. */
  method GenerateAndParse(g: Grammar, depth: nat, input: seq<Symbol>, fuel: nat) returns (accepted: bool, ghost m: Generated)
    requires g.Accepted() && Sortable(g) && 0 < depth
    requires forall i :: 0 <= i < |input| ==> 0 < input[i] < g.nterminal
    ensures accepted ==> Derives(g, [g.start], input)
    ensures Sound(m) && m.g == g
    ensures accepted <==> Parses(g, m.t, depth, fuel, input)
  {
    hide Derives, TablesSound, IsLr0, Explains, Drive, ExactSets, Parser.Valid, Parser.Stack;
    var t, lem, trail := Generate(g);
    GeneratedIsSound(g, lem.lambda, lem.first, lem.states, t, trail);
    m := Generated(g, lem.lambda, lem.first, lem.states, t, trail);
    accepted := false;
    var p := new Parser(g, t, lem.states, depth);
    ghost var bottom, all := [Entry(0, 0)], input + [0];
    ghost var stk := bottom;
    for i := 0 to |input|
      invariant fresh(p) && fresh(p.yystack) && p.Valid() && p.g == g && p.t == t && p.yystack.Length == depth
      invariant if i == 0 then p.yyidx < 0 && stk == [Entry(0, 0)] else p.yyidx >= 0 && p.tokens == input[..i] && stk == p.Stack()
      invariant ParseFrom(g, t, depth, fuel, fuel, bottom, all) == ParseFrom(g, t, depth, fuel, fuel, stk, all[i..])
    {
      assert input[..i + 1] == input[..i] + [input[i]];
      assert all[i..][1..] == all[i + 1..];
      var outcome := p.Parse(input[i], fuel);
      if outcome != Shifted { return; }
      stk := p.Stack();
    }
    assert input[..|input|] == input;
    ghost var last := all[|input|..];
    assert |last| == 1 && last[0] == 0 && last[1..] == [];
    var outcome := p.Parse(0, fuel);
    accepted := outcome == Accepted;
  }

  /** The tokens that were not thrown away. */
  function Picked(input: seq<Symbol>, kept: seq<bool>): Form
    requires |kept| <= |input|
  {
    if kept == [] then []
    else Picked(input, kept[..|kept| - 1]) + if kept[|kept| - 1] then [input[|kept| - 1]] else []
  }

  /** A run that goes on after tokens were thrown away. If it accepts, the start symbol derives the
      tokens that were kept; without a rule for "error" that is the whole input. */
  method ParseThrough(p: Parser, input: seq<Symbol>, fuel: nat) returns (accepted: bool, ghost kept: seq<bool>)
    requires p.Valid() && p.yyidx < 0
    requires forall i :: 0 <= i < |input| ==> 0 < input[i] < p.g.nterminal
    modifies p, p.yystack
    ensures p.Valid() && |kept| <= |input|
    ensures p.g.NoErrorRule() ==> forall i :: 0 <= i < |kept| ==> kept[i]
    ensures accepted ==> |kept| == |input| && Derives(p.g, [p.g.start], Picked(input, kept))
    ensures accepted && p.g.NoErrorRule() ==> Derives(p.g, [p.g.start], input)
  {
    hide Derives, Drive, Parser.Valid, Parser.Stack;
    p.EndIsTerminal();
    accepted, kept := false, [];
    for i := 0 to |input|
      invariant p.Valid() && |kept| == i
      invariant if i == 0 then p.yyidx < 0 else p.yyidx >= 0 && p.tokens == Picked(input, kept)
      invariant p.g.NoErrorRule() ==> forall k :: 0 <= k < i ==> kept[k]
    {
      ghost var before := kept;
      var outcome := p.Parse(input[i], fuel);
      if outcome != Shifted && outcome != Discarded { return; }
      kept := kept + [outcome == Shifted];
      assert kept[..i] == before;
    }
    var outcome := p.Parse(0, fuel);
    accepted := outcome == Accepted;
    if p.g.NoErrorRule() {
      PickedAll(input, kept);
      assert input[..|input|] == input;
    }
  }

  /** Nothing is thrown away where everything is kept. */
  lemma {:induction false} PickedAll(input: seq<Symbol>, kept: seq<bool>)
    requires |kept| <= |input| && forall i :: 0 <= i < |kept| ==> kept[i]
    ensures Picked(input, kept) == input[..|kept|]
  {
    if kept != [] {
      PickedAll(input, kept[..|kept| - 1]);
    }
  }
}
