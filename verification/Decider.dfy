/** When the generated parser decides every input in a known number of steps: grammars without cycles
    and without hidden left recursion. */
module Decider {
  import opened Grammar
  import opened Configs
  import opened Lr0
  import opened Tables
  import opened Pipeline
  import opened Driver
  import opened Recognizer
  import opened FirstSets

  /** Two numbers for each symbol, and bounds on them and on the length of rules. */
  datatype Ranks = Ranks(up: seq<nat>, left: seq<nat>, top: nat, width: nat) {
    /** The nullable symbols of a tail that a stack can have. */
    function Tail(): nat {
      (top + 2) * width
    }

    function Up(s: Symbol): (n: nat)
      ensures n <= top
    {
      if s < |up| && up[s] <= top then up[s] else 0
    }

    function Left(s: Symbol): (n: nat)
      ensures n <= top
    {
      if s < |left| && left[s] <= top then left[s] else 0
    }
  }

  ghost predicate Nullable(g: Grammar, u: Form) {
    Derives(g, u, [])
  }

  /** Along rules whose first symbol can be all that is left `up` grows, so there is no cycle: no symbol
      derives itself. From a left-hand side to a symbol that can be the first one `left` does not grow,
      and it gets less if the symbols before that one are there but vanish: no hidden left recursion. */
  ghost predicate RuleRanked(g: Grammar, k: Ranks, rule: Rule) {
    && g.RuleOk(rule) && |rule.rhs| < k.width
    && (rule.rhs != [] && Nullable(g, rule.rhs[1..]) ==> k.Up(rule.rhs[0]) < k.Up(rule.lhs))
    && (rule.rhs != [] ==> k.Left(rule.rhs[0]) <= k.Left(rule.lhs))
    && forall d :: 0 < d < |rule.rhs| && g.IsNonterminal(rule.rhs[d]) && Nullable(g, rule.rhs[..d]) ==> k.Left(rule.rhs[d]) < k.Left(rule.lhs)
  }

  /** Some state has the rule with the dot at the left. */
  ghost predicate Used(states: seq<State>, r: nat) {
    exists s: nat :: s < |states| && Config(r, 0) in states[s].configs
  }

  ghost predicate Ranked(g: Grammar, states: seq<State>, k: Ranks) {
    forall r :: 0 <= r < |g.rules| && Used(states, r) ==> RuleRanked(g, k, g.rules[r])
  }

  lemma {:induction false} UsedLater(g: Grammar, states: seq<State>, s: nat, c: Config)
    requires IsLr0(g, states) && s < |states| && c in states[s].configs
    ensures c.rule < |g.rules| && Used(states, c.rule)
    decreases c.dot
  {
    hide IsLr0, Used;
    InGrammar(g, states, s, c);
    if c.dot == 0 {
      assert Used(states, c.rule) by { UsedHere(states, s, c); }
    } else {
      DottedIsBasis(g, states, s, c);
      if s == 0 {
        StartHasNoDots(g, states, c);
      } else {
        var p, sh := ParentOf(g, states, s);
        ShiftedFrom(g, states, p, sh, c);
        UsedLater(g, states, p, Config(c.rule, c.dot - 1));
      }
    }
  }

  lemma UsedHere(states: seq<State>, s: nat, c: Config)
    requires s < |states| && c in states[s].configs && c.dot == 0
    ensures Used(states, c.rule)
  {
    assert c == Config(c.rule, 0);
  }

  lemma ConfigRanked(g: Grammar, states: seq<State>, k: Ranks, s: nat, c: Config)
    requires IsLr0(g, states) && Ranked(g, states, k) && s < |states| && (c in states[s].configs || c in states[s].basis)
    ensures c in states[s].configs && ConfigOk(g, c) && RuleRanked(g, k, g.rules[c.rule])
  {
    hide IsLr0, RuleRanked, Used, IsClosureOf;
    StateIsOk(g, states, s);
    if c in states[s].basis { BasisStays(g, states[s], c); }
    InGrammar(g, states, s, c);
    UsedLater(g, states, s, c);
  }

  lemma BasisStays(g: Grammar, st: State, c: Config)
    requires StateOk(g, st) && c in st.basis
    ensures c in st.configs
  {
    assert c in Elements(st.basis) && c in Elements(st.configs);
  }

  lemma InGrammar(g: Grammar, states: seq<State>, s: nat, c: Config)
    requires IsLr0(g, states) && s < |states| && c in states[s].configs
    ensures ConfigOk(g, c)
  {
    hide Complete, DistinctBases, HasParent, IsClosureOf;
    assert StateOk(g, states[s]);
    assert c in Elements(states[s].configs);
  }

  lemma ParentOf(g: Grammar, states: seq<State>, s: nat) returns (p: nat, sh: Shift)
    requires IsLr0(g, states) && 0 < s < |states|
    ensures p < s && sh in states[p].shifts && sh.target == s
  {
    hide StateOk, Complete, DistinctBases;
    assert HasParent(states, s, 0);
    p, sh :| 0 <= p < s && p < |states| && sh in states[p].shifts && sh.target == s;
  }

  // ---- A stack has few symbols that vanish on top of each other ----

  /** How far a configuration is from the end of a rule of least rank. */
  ghost function Height(g: Grammar, k: Ranks, c: Config): nat
    requires ConfigOk(g, c)
  {
    var rule := g.rules[c.rule];
    (if 0 < c.dot && Nullable(g, rule.rhs[..c.dot]) then k.Left(rule.lhs) else k.top + 1) * k.width + (|rule.rhs| - c.dot)
  }

  ghost predicate Below(g: Grammar, k: Ranks, st: State, v: int) {
    forall c :: c in st.basis ==> ConfigOk(g, c) && Height(g, k, c) < v
  }

  /** What a configuration with the dot at the left goes back to. */
  ghost predicate ComesFrom(g: Grammar, k: Ranks, st: State, c: Config) {
    && c.dot == 0 && c.rule < |g.rules|
    && exists b, x :: b in st.basis && NextIs(g, b, x) && g.IsNonterminal(x) && k.Left(g.rules[c.rule].lhs) <= k.Left(x)
  }

  lemma PredictedFrom(g: Grammar, states: seq<State>, k: Ranks, s: nat, c: Config)
    requires g.Valid() && IsLr0(g, states) && Ranked(g, states, k) && s < |states| && c in states[s].configs && c !in states[s].basis
    ensures ComesFrom(g, k, states[s], c)
  {
    hide Derives, IsLr0;
    StateIsOk(g, states, s);
    var st := states[s];
    var basis, items := Elements(st.basis), Elements(st.configs);
    var other := set d | d in items && (d in basis || ComesFrom(g, k, st, d));
    forall d, r | d in other && Predicts(g, d, r)
      ensures Config(r, 0) in other
    {
      ConfigRanked(g, states, k, s, d);
      PredictsFurther(g, k, st, d, r);
    }
    assert basis <= other && PredictionClosed(g, other);
    assert c in items;
  }

  lemma PredictsFurther(g: Grammar, k: Ranks, st: State, d: Config, r: nat)
    requires g.Valid() && Predicts(g, d, r) && RuleRanked(g, k, g.rules[d.rule]) && (d in st.basis || ComesFrom(g, k, st, d))
    ensures ComesFrom(g, k, st, Config(r, 0))
  {
    hide Derives;
    var x := g.rules[r].lhs;
    assert g.RuleOk(g.rules[r]);
    if d !in st.basis {
      var b, y :| b in st.basis && NextIs(g, b, y) && g.IsNonterminal(y) && k.Left(g.rules[d.rule].lhs) <= k.Left(y);
      assert k.Left(x) <= k.Left(y);
    }
  }

  lemma Scaled(a: nat, b: nat, w: nat)
    requires a < b
    ensures a * w + w <= b * w
  {
    assert b * w == a * w + (b - a) * w;
    AtLeast(b - a, w);
  }

  lemma AtLeast(a: nat, k: nat)
    requires a >= 1
    ensures a * k >= k
  {
  }

  /** Behind a symbol that vanishes the configurations are less high. */
  lemma Descends(g: Grammar, k: Ranks, states: seq<State>, p: nat, sh: Shift, v: int)
    requires g.Valid() && IsLr0(g, states) && Ranked(g, states, k) && p < |states| && sh in states[p].shifts
    requires Nullable(g, [sh.sp]) && Below(g, k, states[p], v)
    ensures sh.target < |states| && v > 1 && Below(g, k, states[sh.target], v - 1)
  {
    hide IsLr0, Nullable, Height;
    var m := BasisMember(g, states, p, sh);
    forall c | c in states[sh.target].basis
      ensures ConfigOk(g, c) && Height(g, k, c) < v - 1
    {
      DescendsOne(g, k, states, p, sh, v, c);
    }
  }

  lemma DescendsOne(g: Grammar, k: Ranks, states: seq<State>, p: nat, sh: Shift, v: int, c: Config)
    requires g.Valid() && IsLr0(g, states) && Ranked(g, states, k) && p < |states| && sh in states[p].shifts
    requires Nullable(g, [sh.sp]) && Below(g, k, states[p], v)
    requires sh.target < |states| ==> c in states[sh.target].basis
    ensures ConfigOk(g, c) && Height(g, k, c) < v - 1
  {
    hide IsLr0, Nullable, Height;
    ShiftedFrom(g, states, p, sh, c);
    var b := Config(c.rule, c.dot - 1);
    ConfigRanked(g, states, k, p, b);
    if b in states[p].basis {
      Advances(g, k, b, sh.sp);
    } else {
      PredictedFrom(g, states, k, p, b);
      var a, x :| a in states[p].basis && NextIs(g, a, x) && g.IsNonterminal(x) && k.Left(g.rules[b.rule].lhs) <= k.Left(x);
      ConfigRanked(g, states, k, p, a);
      Enters(g, k, a, x, c, sh.sp);
    }
  }

  lemma StateIsOk(g: Grammar, states: seq<State>, p: nat)
    requires IsLr0(g, states) && p < |states|
    ensures StateOk(g, states[p])
  {
    hide StateOk, Complete, DistinctBases, HasParent;
  }

  lemma Advances(g: Grammar, k: Ranks, b: Config, x: Symbol)
    requires NextIs(g, b, x) && Nullable(g, [x]) && RuleRanked(g, k, g.rules[b.rule])
    ensures Height(g, k, Advance(b)) < Height(g, k, b)
  {
    hide Derives;
    var rule := g.rules[b.rule];
    if 0 < b.dot && Nullable(g, rule.rhs[..b.dot]) {
      var none: Form := [];
      DerivesConcat(g, rule.rhs[..b.dot], none, [x], none);
      assert none + none == none;
      assert rule.rhs[..b.dot] + [x] == rule.rhs[..b.dot + 1];
    } else {
      Scaled(k.Left(rule.lhs), k.top + 1, k.width);
    }
  }

  /** From before x in one rule to behind a symbol that vanishes at the front of another. */
  lemma Enters(g: Grammar, k: Ranks, a: Config, x: Symbol, c: Config, y: Symbol)
    requires NextIs(g, a, x) && g.IsNonterminal(x) && RuleRanked(g, k, g.rules[a.rule])
    requires c.dot == 1 && NextIs(g, Config(c.rule, 0), y) && Nullable(g, [y]) && RuleRanked(g, k, g.rules[c.rule])
    requires k.Left(g.rules[c.rule].lhs) <= k.Left(x)
    ensures Height(g, k, c) < Height(g, k, a)
  {
    hide Derives;
    assert g.rules[c.rule].rhs[..1] == [y];
    if 0 < a.dot && Nullable(g, g.rules[a.rule].rhs[..a.dot]) {
      Scaled(k.Left(g.rules[c.rule].lhs), k.Left(g.rules[a.rule].lhs), k.width);
    } else {
      Scaled(k.Left(g.rules[c.rule].lhs), k.top + 1, k.width);
    }
  }

  /** The entries of a stack up to the last one that stands for tokens. */
  function Base(ylds: seq<Form>): (b: nat)
    ensures b <= |ylds| && (ylds != [] ==> 1 <= b)
  {
    if |ylds| <= 1 || ylds[|ylds| - 1] != [] then |ylds| else Base(ylds[..|ylds| - 1])
  }

  lemma {:induction false} BaseIs(ylds: seq<Form>, b: nat)
    requires 1 <= b <= |ylds| && (b > 1 ==> ylds[b - 1] != []) && forall i :: b <= i < |ylds| ==> ylds[i] == []
    ensures Base(ylds) == b
  {
    if b < |ylds| { BaseIs(ylds[..|ylds| - 1], b); }
  }

  lemma {:induction false} BaseMeans(ylds: seq<Form>)
    requires ylds != []
    ensures var b := Base(ylds); (b > 1 ==> ylds[b - 1] != []) && forall i :: b <= i < |ylds| ==> ylds[i] == []
  {
    if 1 < |ylds| && ylds[|ylds| - 1] == [] { BaseMeans(ylds[..|ylds| - 1]); }
  }

  /** Above the base the configurations of each state are less high than below it. */
  lemma {:induction false} TailDescends(m: Generated, k: Ranks, stk: seq<Entry>, ylds: seq<Form>, read: Form)
    requires Sound(m) && Ranked(m.g, m.states, k) && Spells(m, stk, ylds, read)
    ensures |ylds| == |stk| && TopState(stk) < |m.states|
    ensures Below(m.g, k, m.states[TopState(stk)], k.Tail() + 1 - (|stk| - Base(ylds)))
    ensures |stk| <= Base(ylds) + k.Tail()
    decreases |stk|
  {
    hide Explains, ExactSets, TablesSound, IsLr0, Nullable, Below, Ranked, Ranks.Tail;
    TopInRange(m.states, stk);
    YieldCount(m.g, stk, ylds);
    var n := |stk| - 1;
    if n == 0 || ylds[n] != [] {
      NoHigher(m.g, k, m.states, TopState(stk));
    } else {
      OneLess(m, stk, ylds);
      TailDescends(m, k, stk[..n], ylds[..n], Flatten(ylds[..n]));
      assert Nullable(m.g, [stk[n].major]);
      Descends(m.g, k, m.states, TopState(stk[..n]), Shift(stk[n].major, stk[n].stateno), k.Tail() + 1 - (n - Base(ylds[..n])));
    }
  }

  lemma OneLess(m: Generated, stk: seq<Entry>, ylds: seq<Form>)
    requires IsPath(m.states, stk) && YieldsOk(m.g, stk, ylds) && |stk| > 1
    ensures Spells(m, stk[..|stk| - 1], ylds[..|stk| - 1], Flatten(ylds[..|stk| - 1]))
    ensures Shift(stk[|stk| - 1].major, stk[|stk| - 1].stateno) in m.states[TopState(stk[..|stk| - 1])].shifts
    ensures ylds[|stk| - 1] == [] ==> Nullable(m.g, [stk[|stk| - 1].major])
  {
    hide Derives;
  }

  lemma NoHigher(g: Grammar, k: Ranks, states: seq<State>, s: nat)
    requires g.Valid() && IsLr0(g, states) && Ranked(g, states, k) && s < |states|
    ensures Below(g, k, states[s], k.Tail() + 1)
  {
    hide Nullable, IsLr0;
    forall c | c in states[s].basis
      ensures ConfigOk(g, c) && Height(g, k, c) < k.Tail() + 1
    {
      ConfigRanked(g, states, k, s, c);
      Scaled(k.Left(g.rules[c.rule].lhs), k.top + 1, k.width);
      Scaled(k.top + 1, k.top + 2, k.width);
    }
  }

  // ---- Every reduction makes the stack weigh less ----

  function Power(b: nat, n: nat): (p: nat)
    ensures b > 0 ==> p > 0
  {
    if n == 0 then 1 else AtLeastOne(b, Power(b, n - 1))
  }

  function AtLeastOne(a: nat, b: nat): (p: nat)
    ensures p == a * b && (a > 0 && b > 0 ==> p > 0)
  {
    a * b
  }

  /** The symbols of a tail as a number of n digits: the first counts most. */
  function Number(k: Ranks, t: Form, n: nat): nat {
    if n == 0 || t == [] then 0 else (k.Up(t[0]) + 1) * Power(k.top + 2, n - 1) + Number(k, t[1..], n - 1)
  }

  lemma {:induction false} NumberBound(k: Ranks, t: Form, n: nat)
    ensures Number(k, t, n) < Power(k.top + 2, n)
  {
    if n > 0 && t != [] {
      NumberBound(k, t[1..], n - 1);
      Scaled(k.Up(t[0]) + 1, k.top + 2, Power(k.top + 2, n - 1));
    }
  }

  /** A symbol takes the place of others at the end of which the first has a lower rank, or of none. */
  lemma {:induction false} NumberGrows(k: Ranks, t: Form, u: Form, x: Symbol, n: nat)
    requires |t| < n && (u != [] ==> k.Up(u[0]) < k.Up(x))
    ensures Number(k, t + u, n) < Number(k, t + [x], n)
  {
    var w := Power(k.top + 2, n - 1);
    if t == [] {
      assert t + u == u && t + [x] == [x];
      if u != [] {
        NumberBound(k, u[1..], n - 1);
        Scaled(k.Up(u[0]) + 1, k.Up(x) + 1, w);
      } else {
        AtLeast(k.Up(x) + 1, w);
      }
    } else {
      assert (t + u)[1..] == t[1..] + u && (t + [x])[1..] == t[1..] + [x];
      NumberGrows(k, t[1..], u, x, n - 1);
    }
  }

  function Symbols(stk: seq<Entry>): Form {
    seq(|stk|, i requires 0 <= i < |stk| => stk[i].major)
  }

  /** What every reduction makes less: the height of the base, then how far its top symbol can rise,
      then what is missing to the greatest number the tail can spell. */
  function Weight(k: Ranks, stk: seq<Entry>, b: nat): nat
    requires b <= |stk|
  {
    if b == 0 then 0 else
      Digits(k, b * (k.top + 1) + (k.top - k.Up(stk[b - 1].major)), Symbols(stk[b..]))
  }

  function Digits(k: Ranks, high: nat, t: Form): nat {
    NumberBound(k, t, k.Tail());
    high * Power(k.top + 2, k.Tail()) + (Power(k.top + 2, k.Tail()) - 1 - Number(k, t, k.Tail()))
  }

  lemma HighLess(k: Ranks, high: nat, t: Form, high1: nat, t1: Form)
    requires high1 < high
    ensures Digits(k, high1, t1) < Digits(k, high, t)
  {
    NumberBound(k, t, k.Tail());
    Scaled(high1, high, Power(k.top + 2, k.Tail()));
  }

  lemma {:induction false} FlattenEmpty(ys: seq<Form>)
    ensures Flatten(ys) == [] <==> forall i :: 0 <= i < |ys| ==> ys[i] == []
  {
    if ys != [] { FlattenEmpty(ys[..|ys| - 1]); }
  }

  /** What a reduction makes of the base: nothing if only symbols that vanish are reduced; otherwise it
      ends with the new symbol, and is no longer than before. */
  lemma BaseAfter(ylds: seq<Form>, j: nat) returns (y: Form, ys: seq<Form>)
    requires 1 <= j <= |ylds|
    ensures y == Flatten(ylds[j..]) && ys == ylds[..j] + [y]
    ensures var b := Base(ylds); if y == [] then b <= j && Base(ys) == b else j < b && Base(ys) == j + 1
  {
    y := Flatten(ylds[j..]);
    ys := ylds[..j] + [y];
    FlattenEmpty(ylds[j..]);
    BaseMeans(ylds);
    var b := Base(ylds);
    if y == [] {
      assert forall i :: j <= i < |ylds| ==> ylds[i] == ylds[j..][i - j];
      BaseIs(ys, b);
    } else {
      var i :| 0 <= i < |ylds[j..]| && ylds[j..][i] != [];
      assert ylds[j + i] != [];
      BaseIs(ys, j + 1);
    }
  }

  /** A reduction lowers the weight of the stack and does not raise its base. */
  lemma ReduceLowers(m: Generated, k: Ranks, stk: seq<Entry>, ylds: seq<Form>, read: Form, r: nat) returns (q: nat, ys: seq<Form>)
    requires Sound(m) && Ranked(m.g, m.states, k) && Spells(m, stk, ylds, read) && TopState(stk) < |m.states|
    requires CanReduce(m.g, m.states, TopState(stk), r)
    ensures r < |m.g.rules| && |m.g.rules[r].rhs| < |stk| == |ylds|
    ensures var rule := m.g.rules[r];
            var next := stk[..|stk| - |rule.rhs|] + [Entry(q, rule.lhs)];
            if rule.lhs == m.g.start then forall depth: nat :: ReduceStep(m.g, m.t, depth, stk, r) == End(Accepted, [])
            else
              && Spells(m, next, ys, read) && |ys| == |next| && Base(ys) <= Base(ylds)
              && Weight(k, next, Base(ys)) < Weight(k, stk, Base(ylds))
              && forall depth: nat :: |stk| < depth ==> ReduceStep(m.g, m.t, depth, stk, r) == Go(next)
  {
    hide Sound, Derives, Spells, CanReduce, ReduceStep, Top, Base, Weight, Flatten;
    q := ReduceGoes(m, stk, ylds, read, r);
    var rule := m.g.rules[r];
    var j := |stk| - |rule.rhs|;
    var y;
    y, ys := BaseAfter(ylds, j);
    if rule.lhs != m.g.start {
      var next := stk[..j] + [Entry(q, rule.lhs)];
      TailDescends(m, k, next, ys, read);
      if Base(ylds) <= j + 1 && j < |stk| {
        RuleIsRanked(m, k, TopState(stk), r);
        FirstRises(m, k, stk, ylds, read, r, j);
      }
      if y == [] {
        TailLowers(k, stk, next, Base(ylds), j);
      } else {
        BaseLowers(k, stk, next, Base(ylds), j);
      }
    }
  }

  lemma RuleIsRanked(m: Generated, k: Ranks, s: nat, r: nat)
    requires Sound(m) && Ranked(m.g, m.states, k) && CanReduce(m.g, m.states, s, r)
    ensures RuleRanked(m.g, k, m.g.rules[r])
  {
    hide IsLr0, Explains, ExactSets, TablesSound, Ranked, RuleRanked;
    ConfigRanked(m.g, m.states, k, s, Config(r, |m.g.rules[r].rhs|));
  }

  /** If what is behind the first symbol of the handle vanishes, the left-hand side has a higher rank. */
  lemma FirstRises(m: Generated, k: Ranks, stk: seq<Entry>, ylds: seq<Form>, read: Form, r: nat, j: nat)
    requires r < |m.g.rules| && RuleRanked(m.g, k, m.g.rules[r]) && Spells(m, stk, ylds, read) && |ylds| == |stk| && j < |stk| && Base(ylds) <= j + 1
    requires |m.g.rules[r].rhs| == |stk| - j && Top(stk, |stk| - j) == m.g.rules[r].rhs
    ensures k.Up(stk[j].major) < k.Up(m.g.rules[r].lhs)
  {
    hide Derives, Base, IsPath;
    var rhs := m.g.rules[r].rhs;
    BaseMeans(ylds);
    forall i | 0 <= i < |rhs[1..]|
      ensures Derives(m.g, [rhs[1..][i]], ylds[j + 1..][i])
    {
      assert rhs[1..][i] == Top(stk, |stk| - j)[i + 1] == stk[j + 1 + i].major;
    }
    DerivesAll(m.g, rhs[1..], ylds[j + 1..]);
    FlattenEmpty(ylds[j + 1..]);
    assert rhs[0] == Top(stk, |stk| - j)[0] == stk[j].major;
  }

  lemma TailLowers(k: Ranks, stk: seq<Entry>, next: seq<Entry>, b: nat, j: nat)
    requires 1 <= b <= j <= |stk| && |next| == j + 1 && next[..j] == stk[..j] && |next| - b <= k.Tail()
    requires j < |stk| ==> k.Up(stk[j].major) < k.Up(next[j].major)
    ensures Weight(k, next, b) < Weight(k, stk, b)
  {
    hide Number, Ranks.Tail, Ranks.Up, Power;
    var t, u := Symbols(stk[b..j]), Symbols(stk[j..]);
    assert Symbols(stk[b..]) == t + u;
    assert Symbols(next[b..]) == t + [next[j].major];
    assert next[b - 1] == next[..j][b - 1] == stk[b - 1];
    NumberGrows(k, t, u, next[j].major, k.Tail());
    NumberBound(k, t + [next[j].major], k.Tail());
  }

  lemma BaseLowers(k: Ranks, stk: seq<Entry>, next: seq<Entry>, b: nat, j: nat)
    requires 1 <= j < b <= |stk| && |next| == j + 1
    requires j + 1 == b ==> k.Up(stk[j].major) < k.Up(next[j].major)
    ensures Weight(k, next, j + 1) < Weight(k, stk, b)
  {
    hide Digits, Ranks.Up;
    var high, high1 := b * (k.top + 1) + (k.top - k.Up(stk[b - 1].major)), (j + 1) * (k.top + 1) + (k.top - k.Up(next[j].major));
    if j + 1 < b { Scaled(j + 1, b, k.top + 1); }
    HighLess(k, high, Symbols(stk[b..]), high1, Symbols(next[j + 1..]));
  }

  // ---- So every call ends ----

  /** One step: less weight, a token shifted, or the end; never for want of stack. */
  lemma StepLowers(m: Generated, k: Ranks, depth: nat, depth1: nat, stk: seq<Entry>, ylds: seq<Form>, read: Form, x: nat) returns (ys: seq<Form>)
    requires Sound(m) && Ranked(m.g, m.states, k) && Spells(m, stk, ylds, read) && x < m.g.nterminal
    requires Base(ylds) + k.Tail() < depth && Base(ylds) + k.Tail() < depth1
    ensures |ylds| == |stk|
    ensures var s := OneStep(m.g, m.t, depth, stk, x);
      && s == OneStep(m.g, m.t, depth1, stk, x)
      && if s.Go? then Spells(m, s.stk, ys, read) && |ys| == |s.stk| && Base(ys) <= Base(ylds) && Weight(k, s.stk, Base(ys)) < Weight(k, stk, Base(ylds))
         else s.outcome != Unfinished && s.outcome != Overflow && s.outcome != Idle && |s.stk| <= Base(ylds) + k.Tail() + 1
  {
    hide IsLr0, Explains, ExactSets, IsPath, YieldsOk, Flatten, Weight, Tables.FindShiftAction, Tables.FindReduceAction, ReduceStep, CanReduce, Ranked, Base, Ranks.Tail;
    ys := [];
    TailDescends(m, k, stk, ylds, read);
    var s := TopState(stk);
    assert CodeSound(m.g, m.states, m.t.FindShiftAction(s, x), s, x);
    var act := m.t.FindShiftAction(s, x);
    OneStepIs(m.g, m.t, depth, stk, x, act);
    OneStepIs(m.g, m.t, depth1, stk, x, act);
    if m.t.nstate <= act < m.t.nstate + |m.g.rules| {
      var q;
      q, ys := ReduceLowers(m, k, stk, ylds, read, act - m.t.nstate);
    }
  }

  /** A call of the parser ends in as many steps as the stack has weight, with a stack that is not much
      higher, the same for every depth and number of steps that suffice. */
  lemma {:induction false} DriveEnds(m: Generated, k: Ranks, depth: nat, depth1: nat, stk: seq<Entry>, ylds: seq<Form>, read: Form, x: nat, fuel: nat, fuel1: nat)
    requires Sound(m) && Ranked(m.g, m.states, k) && Spells(m, stk, ylds, read) && x < m.g.nterminal
    requires Base(ylds) + k.Tail() < depth && Base(ylds) + k.Tail() < depth1
    requires |ylds| == |stk| ==> Weight(k, stk, Base(ylds)) < fuel && Weight(k, stk, Base(ylds)) < fuel1
    ensures var s := Drive(m.g, m.t, depth, stk, x, fuel);
      && s == Drive(m.g, m.t, depth1, stk, x, fuel1)
      && s.End? && s.outcome != Unfinished && s.outcome != Overflow && s.outcome != Idle && |s.stk| <= Base(ylds) + k.Tail() + 1
    decreases fuel
  {
    hide Sound, Spells, OneStep, Ranked, Weight, Base, Ranks.Tail;
    var ys := StepLowers(m, k, depth, depth1, stk, ylds, read, x);
    DriveMore(m.g, m.t, depth, stk, x, fuel);
    DriveMore(m.g, m.t, depth1, stk, x, fuel1);
    var s := OneStep(m.g, m.t, depth, stk, x);
    if s.Go? {
      DriveEnds(m, k, depth, depth1, s.stk, ys, read, x, fuel - 1, fuel1 - 1);
    }
  }

  /** A height that suffices for n more tokens. */
  function Room(k: Ranks, n: nat): nat {
    n * (k.Tail() + 1)
  }

  /** The weight of a stack whose base is no higher than n. */
  function Bound(k: Ranks, n: nat): nat {
    (n + 1) * (k.top + 1) * Power(k.top + 2, k.Tail())
  }

  lemma WeightBound(k: Ranks, stk: seq<Entry>, b: nat, n: nat)
    requires b <= |stk| && b <= n
    ensures Weight(k, stk, b) < Bound(k, n)
  {
    hide Number, Ranks.Tail, Ranks.Up;
    var p := Power(k.top + 2, k.Tail());
    Scaled(b, n + 1, k.top + 1);
    if b > 0 {
      NumberBound(k, Symbols(stk[b..]), k.Tail());
      Scaled(b * (k.top + 1) + (k.top - k.Up(stk[b - 1].major)), (n + 1) * (k.top + 1), p);
    } else {
      AtLeast((n + 1) * (k.top + 1), p);
    }
  }

  lemma BaseInside(m: Generated, stk: seq<Entry>, ylds: seq<Form>, read: Form)
    requires Spells(m, stk, ylds, read)
    ensures |ylds| == |stk| && Base(ylds) <= |stk|
  {
    hide Derives, IsPath;
  }

  /** Every call of a run comes to an end of its own: no call is cut off, and the stack suffices. */
  ghost predicate CallsEnd(g: Grammar, t: Tables, depth: nat, fuel: nat, stk: seq<Entry>, input: Form)
    decreases |input|
  {
    input == [] ||
    var s := Drive(g, t, depth, stk, input[0], fuel);
    && s.End? && s.outcome != Unfinished && s.outcome != Overflow
    && (s.outcome == Shifted ==> CallsEnd(g, t, depth, fuel, s.stk, input[1..]))
  }

  /** A run over an input comes to the same end with every depth and number of steps that suffice. */
  lemma {:induction false} RunEnds(m: Generated, k: Ranks, depth: nat, fuel: nat, depth1: nat, fuel1: nat,
                                   stk: seq<Entry>, ylds: seq<Form>, read: Form, input: Form, high: nat)
    requires Sound(m) && Ranked(m.g, m.states, k) && Spells(m, stk, ylds, read) && AllTerminals(m.g, input)
    requires Base(ylds) + Room(k, |input|) <= high <= depth && high <= depth1
    requires Bound(k, high) <= fuel && Bound(k, high) <= fuel1
    ensures ParseFrom(m.g, m.t, depth, fuel, fuel, stk, input) == ParseFrom(m.g, m.t, depth1, fuel1, fuel1, stk, input)
    ensures CallsEnd(m.g, m.t, depth, fuel, stk, input)
    decreases |input|
  {
    hide Sound, Spells, Ranked, Weight, Drive, Base, Bound, Ranks.Tail;
    if input != [] {
      BaseInside(m, stk, ylds, read);
      assert Room(k, |input|) == Room(k, |input| - 1) + k.Tail() + 1;
      WeightBound(k, stk, Base(ylds), high);
      DriveEnds(m, k, depth, depth1, stk, ylds, read, input[0], fuel, fuel1);
      DriveSound(m, depth, stk, ylds, read, input[0], fuel);
      var s := Drive(m.g, m.t, depth, stk, input[0], fuel);
      if s.outcome == Shifted {
        var ys :| Spells(m, s.stk, ys, read + [input[0]]);
        BaseInside(m, s.stk, ys, read + [input[0]]);
        RunEnds(m, k, depth, fuel, depth1, fuel1, s.stk, ys, read + [input[0]], input[1..], high);
      }
    }
  }

  /** For a grammar without conflicts, cycles and hidden left recursion the generated parser decides
      every input: with a stack and a number of steps for each token that are known beforehand, it
      accepts if and only if the input is not empty and the start symbol derives it, and every call ends. */
  lemma Decides(m: Generated, k: Ranks, input: Form)
    requires Sound(m) && ConflictFree(m.trail) && Ranked(m.g, m.states, k) && AllTerminals(m.g, input)
    ensures var depth := 1 + Room(k, |input| + 1);
      && (Parses(m.g, m.t, depth, Bound(k, depth), input) <==> input != [] && Derives(m.g, [m.g.start], input))
      && CallsEnd(m.g, m.t, depth, Bound(k, depth), [Entry(0, 0)], input + [0])
  {
    hide ConflictFree, Ranked, Derives, IsLr0, Explains, ExactSets, ParseFrom, Bound, Room;
    var depth := 1 + Room(k, |input| + 1);
    var fuel := Bound(k, depth);
    var bottom := [Entry(0, 0)];
    BottomOk(m.g, m.states, m.t, bottom);
    assert Spells(m, bottom, [[]], []);
    assert AllTerminals(m.g, input + [0]);
    RunEnds(m, k, depth, fuel, depth, fuel, bottom, [[]], [], input + [0], depth);
    if Parses(m.g, m.t, depth, fuel, input) { ParsedIsDerived(m, depth, fuel, input); }
    if input != [] && Derives(m.g, [m.g.start], input) {
      DerivedIsParsed(m, input);
      var enough: nat :| ParsesWith(m, enough, input);
      var big := enough + depth + fuel;
      assert Parses(m.g, m.t, big, big, input);
      RunEnds(m, k, depth, fuel, big, big, bottom, [[]], [], input + [0], depth);
    }
  }
}
