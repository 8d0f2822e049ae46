/** Without conflicts and useless symbols every call of the generated parser ends: such a grammar has
    neither cycles nor hidden left recursion, or else the parser could be kept reducing. */
module Halting {
  import opened Grammar
  import opened Configs
  import opened Lr0
  import opened Tables
  import Pipeline
  import FirstSets
  import Actions
  import opened Driver
  import opened Recognizer
  import opened Decider

  // ---- The parser takes one way, and if it comes to an end there is no other end ----

  ghost predicate Stuck(m: Generated, c: Conf) {
    forall d :: !Moves(m, c, d)
  }

  ghost predicate Halts(m: Generated, c: Conf) {
    exists d, n: nat :: Goes(m, c, d, n) && Stuck(m, d)
  }

  lemma OneWay(m: Generated, c: Conf, d: Conf, e: Conf)
    requires Moves(m, c, d) && Moves(m, c, e)
    ensures d == e
  {
    hide OneStep;
  }

  lemma {:induction false} OnTheWay(m: Generated, c: Conf, d: Conf, n: nat, e: Conf, k: nat)
    requires Goes(m, c, d, n) && Stuck(m, d) && Goes(m, c, e, k)
    ensures k <= n && Goes(m, e, d, n - k)
    decreases k
  {
    hide Moves;
    if k > 0 {
      var x :| Moves(m, c, x) && Goes(m, x, e, k - 1);
      assert n > 0;
      var y :| Moves(m, c, y) && Goes(m, y, d, n - 1);
      OneWay(m, c, x, y);
      OnTheWay(m, x, d, n - 1, e, k - 1);
    }
  }

  lemma HaltsBefore(m: Generated, c: Conf, d: Conf)
    requires Reaches(m, c, d) && Halts(m, d)
    ensures Halts(m, c)
  {
    hide Goes, Moves;
    var k: nat :| Goes(m, c, d, k);
    var e, n: nat :| Goes(m, d, e, n) && Stuck(m, e);
    GoesOn(m, c, d, e, k, n);
  }

  /** What comes back to where it was does not end. */
  lemma {:induction false} NoReturn(m: Generated, c: Conf, k: nat, d: Conf, n: nat)
    requires Goes(m, c, c, k) && k > 0 && Goes(m, c, d, n)
    ensures !Stuck(m, d)
    decreases n
  {
    hide Goes, Stuck;
    if Stuck(m, d) {
      OnTheWay(m, c, d, n, c, k);
      NoReturn(m, c, k, d, n - k);
    }
  }

  lemma {:induction false} NoHigherThan(m: Generated, c: Conf, d: Conf, k: nat)
    requires Goes(m, c, d, k)
    ensures |d.stk| <= |c.stk| + k
    decreases k
  {
    hide OneStep;
    if k > 0 {
      var x :| Moves(m, c, x) && Goes(m, x, d, k - 1);
      DeepEnough(m, c.stk, c.input[0], |c.stk| + 1);
      NoHigherThan(m, x, d, k - 1);
    }
  }

  /** As long as no token is shifted only the next one matters. */
  lemma {:induction false} NextMatters(m: Generated, c: Conf, d: Conf, k: nat, input: seq<Symbol>)
    requires Goes(m, c, d, k)
    ensures |d.input| <= |c.input|
    ensures |d.input| == |c.input| && c.input != [] && input != [] && input[0] == c.input[0] ==>
              Goes(m, Conf(c.stk, input), Conf(d.stk, input), k)
    decreases k
  {
    hide OneStep;
    if k > 0 {
      var x :| Moves(m, c, x) && Goes(m, x, d, k - 1);
      NextMatters(m, x, d, k - 1, input);
      if |d.input| == |c.input| && input != [] && input[0] == c.input[0] {
        assert Moves(m, Conf(c.stk, input), Conf(x.stk, input));
      }
    }
  }

  lemma ReachesToo(m: Generated, stk: seq<Entry>, next: seq<Entry>, input: seq<Symbol>, other: seq<Symbol>)
    requires Reaches(m, Conf(stk, input), Conf(next, input)) && input != [] && other != [] && other[0] == input[0]
    ensures Reaches(m, Conf(stk, other), Conf(next, other))
  {
    hide Goes;
    var n: nat :| Goes(m, Conf(stk, input), Conf(next, input), n);
    NextMatters(m, Conf(stk, input), Conf(next, input), n, other);
  }

  // ---- Every configuration of a state is in some run that ends ----

  /** Every right-hand side derives some tokens. */
  ghost predicate Productive(g: Grammar) {
    forall r :: 0 <= r < |g.rules| ==> exists w :: AllTerminals(g, w) && Derives(g, g.rules[r].rhs, w)
  }

  lemma Yield(g: Grammar, r: nat, d: nat) returns (w: Form, n: nat)
    requires Productive(g) && r < |g.rules| && d <= |g.rules[r].rhs|
    ensures AllTerminals(g, w) && DerivesIn(g, g.rules[r].rhs[d..], w, n)
  {
    hide DerivesIn;
    var rhs := g.rules[r].rhs;
    var all :| AllTerminals(g, all) && Derives(g, rhs, all);
    var k: nat :| DerivesIn(g, rhs, all, k);
    assert rhs == rhs[..d] + rhs[d..];
    var w1, n1;
    w1, w, n1, n := SplitDerivation(g, rhs[..d], rhs[d..], all, k);
    TerminalParts(g, w1, w);
  }

  /** With a left-hand side on the stack below, the run ends. */
  ghost predicate Resumes(m: Generated, below: seq<Entry>, lhs: Symbol, a: Symbol, tail: seq<Symbol>) {
    && below != [] && TopState(below) < |m.states|
    && if lhs == m.g.start then below == [Entry(0, 0)] && a == 0
       else exists q: nat :: ResumesIn(m, below, lhs, a, tail, q)
  }

  ghost predicate ResumesIn(m: Generated, below: seq<Entry>, lhs: Symbol, a: Symbol, tail: seq<Symbol>, q: nat)
    requires below != [] && TopState(below) < |m.states|
  {
    q < |m.states| && Shift(lhs, q) in m.states[TopState(below)].shifts && Halts(m, Conf(below + [Entry(q, lhs)], [a] + tail))
  }

  /** A configuration in the top state, and what follows it in a run that ends. */
  ghost predicate Leads(m: Generated, stk: seq<Entry>, c: Config, a: Symbol, tail: seq<Symbol>) {
    && stk != [] && c.dot < |stk| && ConfigOk(m.g, c) && m.g.IsTerminal(a)
    && InState(m, TopState(stk), c) && Recognizer.Follows(m, TopState(stk), c, a)
    && Resumes(m, stk[..|stk| - c.dot], m.g.rules[c.rule].lhs, a, tail)
  }

  lemma Finishes(m: Generated, stk: seq<Entry>, c: Config, w: Form, n: nat, a: Symbol, tail: seq<Symbol>)
    requires Sound(m) && ConflictFree(m.trail) && Leads(m, stk, c, a, tail)
    requires DerivesIn(m.g, m.g.rules[c.rule].rhs[c.dot..], w, n) && AllTerminals(m.g, w)
    ensures Halts(m, Conf(stk, w + ([a] + tail)))
  {
    hide Sound, ConflictFree, DerivesIn, InState, Recognizer.Follows, Moves, Reaches, Halts, OneStep;
    var ext := ReadsRest(m, stk, c, w, n, a, tail);
    var k := |stk| - c.dot;
    var below, handle, lhs := stk[..k], stk[k..] + ext, m.g.rules[c.rule].lhs;
    assert below + handle == stk + ext;
    assert ([a] + tail)[0] == a;
    if lhs == m.g.start {
      AcceptsAtEnd(m, c.rule, handle);
      StuckAtEnd(m, stk + ext, [a] + tail);
    } else {
      var q: nat :| ResumesIn(m, below, lhs, a, tail, q);
      ReduceMoves(m, below, handle, c.rule, q, [a] + tail);
      HaltsBefore(m, Conf(stk + ext, [a] + tail), Conf(below + [Entry(q, lhs)], [a] + tail));
    }
    HaltsBefore(m, Conf(stk, w + ([a] + tail)), Conf(stk + ext, [a] + tail));
  }

  lemma StuckAtEnd(m: Generated, stk: seq<Entry>, input: seq<Symbol>)
    requires input != [] && forall depth: nat :: OneStep(m.g, m.t, depth, stk, input[0]) == End(Accepted, [])
    ensures Halts(m, Conf(stk, input))
  {
    hide OneStep;
    assert Goes(m, Conf(stk, input), Conf(stk, input), 0);
    assert Stuck(m, Conf(stk, input));
  }

  ghost predicate HasContext(m: Generated, s: nat, c: Config) {
    exists stk, a, tail :: stk != [] && TopState(stk) == s && Leads(m, stk, c, a, tail)
  }

  lemma SameShift(m: Generated, s: nat, x: Symbol, q: nat, p: nat)
    requires Sound(m) && s < |m.states| && Shift(x, q) in m.states[s].shifts && Shift(x, p) in m.states[s].shifts
    ensures p == q
  {
    hide Pipeline.Explains, FirstSets.ExactSets, TablesSound, DistinctBases, HasParent, StateOk;
    assert Complete(m.g, m.states, s);
  }

  /** Over the symbol after the dot the context goes on. */
  lemma ContextOver(m: Generated, stk: seq<Entry>, c: Config, a: Symbol, tail: seq<Symbol>, x: Symbol, q: nat)
    requires Sound(m) && Leads(m, stk, c, a, tail) && NextIs(m.g, c, x) && Shift(x, q) in m.states[TopState(stk)].shifts
    ensures q < |m.states| && Leads(m, stk + [Entry(q, x)], Advance(c), a, tail)
  {
    hide Sound, Recognizer.Follows, Resumes;
    var p := ShiftOver(m, TopState(stk), c, x);
    SameShift(m, TopState(stk), x, p, q);
    var next := stk + [Entry(q, x)];
    assert next[..|next| - (c.dot + 1)] == stk[..|stk| - c.dot];
  }

  lemma ContextOfPredicted(m: Generated, s: nat, c: Config, r: nat)
    requires Sound(m) && ConflictFree(m.trail) && Productive(m.g) && HasContext(m, s, c) && Predicts(m.g, c, r)
    ensures HasContext(m, s, Config(r, 0))
  {
    hide Pipeline.Explains, FirstSets.ExactSets, TablesSound, IsLr0, ConflictFree, Productive, DerivesIn, Recognizer.Follows, Resumes, Halts;
    var stk, a, tail :| stk != [] && TopState(stk) == s && Leads(m, stk, c, a, tail);
    var x := m.g.rules[r].lhs;
    var w, n := Yield(m.g, c.rule, c.dot + 1);
    Predicted(m, s, c, r, w, a, n);
    var q := ShiftOver(m, s, c, x);
    ContextOver(m, stk, c, a, tail, x, q);
    Finishes(m, stk + [Entry(q, x)], Advance(c), w, n, a, tail);
    var rest := w + ([a] + tail);
    var b, more := rest[0], rest[1..];
    assert rest == [b] + more;
    assert b == (w + [a])[0];
    if x == m.g.start { NothingPredictsStart(m.g, r); }
    assert stk[..|stk|] == stk;
    assert ResumesIn(m, stk, x, b, more, q);
    assert Resumes(m, stk, x, b, more) by { ResumesBy(m, stk, x, b, more, q); }
    assert Leads(m, stk, Config(r, 0), b, more);
  }

  lemma ResumesBy(m: Generated, below: seq<Entry>, lhs: Symbol, a: Symbol, tail: seq<Symbol>, q: nat)
    requires below != [] && TopState(below) < |m.states| && lhs != m.g.start && ResumesIn(m, below, lhs, a, tail, q)
    ensures Resumes(m, below, lhs, a, tail)
  {
    hide ResumesIn;
  }

  lemma {:induction false} Context(m: Generated, s: nat, c: Config)
    requires Sound(m) && ConflictFree(m.trail) && Productive(m.g) && InState(m, s, c)
    ensures HasContext(m, s, c)
    decreases s
  {
    hide Sound, ConflictFree, Productive, HasContext, StateOk;
    var basis, items := Elements(m.states[s].basis), Elements(m.states[s].configs);
    StateIsClosed(m, s);
    var other := set d | d in items && HasContext(m, s, d);
    forall d | d in basis
      ensures d in other
    {
      BasisInState(m, s, d);
      if s == 0 {
        ContextAtStart(m, d);
      } else {
        var p, sh := Behind(m, s, d);
        Context(m, p, Config(d.rule, d.dot - 1));
        ContextBehind(m, p, sh, d);
      }
    }
    forall d, r | d in other && Predicts(m.g, d, r)
      ensures Config(r, 0) in other
    {
      ContextOfPredicted(m, s, d, r);
    }
    assert PredictionClosed(m.g, other);
    assert c in items;
  }

  lemma StateIsClosed(m: Generated, s: nat)
    requires Sound(m) && s < |m.states|
    ensures IsClosureOf(m.g, Elements(m.states[s].basis), Elements(m.states[s].configs))
  {
    hide IsClosureOf, Complete, Pipeline.Explains, FirstSets.ExactSets, TablesSound, DistinctBases, HasParent;
    assert StateOk(m.g, m.states[s]);
  }

  lemma ContextAtStart(m: Generated, c: Config)
    requires Sound(m) && |m.states| > 0 && c in m.states[0].basis
    ensures HasContext(m, 0, c)
  {
    hide Pipeline.Explains, FirstSets.ExactSets, TablesSound, IsLr0, Recognizer.Follows;
    StartHasNoDots(m.g, m.states, c);
    StartConfig(m, c.rule);
    var bottom := [Entry(0, 0)];
    assert bottom[..1] == bottom;
    assert c == Config(c.rule, 0);
    assert Leads(m, bottom, c, 0, []);
  }

  lemma Behind(m: Generated, s: nat, c: Config) returns (p: nat, sh: Shift)
    requires Sound(m) && 0 < s < |m.states| && c in m.states[s].basis
    ensures p < s && sh in m.states[p].shifts && sh.target == s && c.dot > 0
    ensures InState(m, p, Config(c.rule, c.dot - 1)) && NextIs(m.g, Config(c.rule, c.dot - 1), sh.sp)
  {
    hide Pipeline.Explains, FirstSets.ExactSets, TablesSound, IsLr0;
    p, sh := ParentOf(m.g, m.states, s);
    ShiftedFrom(m.g, m.states, p, sh, c);
  }

  lemma ContextBehind(m: Generated, p: nat, sh: Shift, c: Config)
    requires Sound(m) && p < |m.states| && sh in m.states[p].shifts && c.dot > 0
    requires HasContext(m, p, Config(c.rule, c.dot - 1)) && NextIs(m.g, Config(c.rule, c.dot - 1), sh.sp)
    ensures HasContext(m, sh.target, c)
  {
    hide Sound, Leads;
    var b := Config(c.rule, c.dot - 1);
    var stk, a, tail :| stk != [] && TopState(stk) == p && Leads(m, stk, b, a, tail);
    assert sh == Shift(sh.sp, sh.target);
    ContextOver(m, stk, b, a, tail, sh.sp, sh.target);
    assert Advance(b) == c;
  }

  // ---- Hidden left recursion would let the stack grow without end ----

  /** From the left-hand side of a rule to the symbol at a place before which everything vanishes. */
  datatype Arc = Arc(rule: nat, at: nat)

  ghost predicate IsArc(m: Generated, e: Arc) {
    && e.rule < |m.g.rules| && Used(m.states, e.rule) && e.at < |m.g.rules[e.rule].rhs|
    && Decider.Nullable(m.g, m.g.rules[e.rule].rhs[..e.at])
  }

  function From(g: Grammar, e: Arc): Symbol
    requires e.rule < |g.rules|
  {
    g.rules[e.rule].lhs
  }

  function To(g: Grammar, e: Arc): Symbol
    requires e.rule < |g.rules| && e.at < |g.rules[e.rule].rhs|
  {
    g.rules[e.rule].rhs[e.at]
  }

  ghost predicate IsWalk(m: Generated, es: seq<Arc>) {
    && (forall i :: 0 <= i < |es| ==> IsArc(m, es[i]))
    && forall i :: 0 < i < |es| ==> To(m.g, es[i - 1]) == From(m.g, es[i])
  }

  /** A walk and a rule that goes on where it ends. */
  ghost predicate WalkTo(m: Generated, es: seq<Arc>, last: nat) {
    IsWalk(m, es) && last < |m.g.rules| && (es != [] ==> To(m.g, es[|es| - 1]) == m.g.rules[last].lhs)
  }

  function FirstRule(es: seq<Arc>, last: nat): nat {
    if es == [] then last else es[0].rule
  }

  lemma WalkOn(m: Generated, es: seq<Arc>, last: nat)
    requires WalkTo(m, es, last) && es != []
    ensures WalkTo(m, es[1..], last) && FirstRule(es[1..], last) < |m.g.rules|
    ensures To(m.g, es[0]) == m.g.rules[FirstRule(es[1..], last)].lhs
  {
    hide Decider.Nullable, Used;
    assert IsArc(m, es[0]);
    if |es| > 1 {
      assert IsArc(m, es[1]) && es[1..][0] == es[1];
    }
  }

  /** What is behind the places of a walk derives these tokens. */
  ghost predicate BehindYields(m: Generated, es: seq<Arc>, vs: seq<Form>)
    requires IsWalk(m, es)
  {
    |vs| == |es| && forall i :: 0 <= i < |es| ==>
      AllTerminals(m.g, vs[i]) && Derives(m.g, m.g.rules[es[i].rule].rhs[es[i].at + 1..], vs[i])
  }

  function Backwards(vs: seq<Form>): Form {
    if vs == [] then [] else Backwards(vs[1..]) + vs[0]
  }

  /** A rule is in the state, dot at the left, and the token can follow it. */
  ghost predicate Expected(m: Generated, s: nat, r: nat, y: Symbol) {
    InState(m, s, Config(r, 0)) && Recognizer.Follows(m, s, Config(r, 0), y) && m.g.IsTerminal(y)
  }

  /** The first rule of a walk derives what the last derives, and then what is behind the places. */
  lemma {:induction false} WalkDerives(m: Generated, es: seq<Arc>, vs: seq<Form>, last: nat, u: Form)
    requires WalkTo(m, es, last) && BehindYields(m, es, vs) && AllTerminals(m.g, u) && Derives(m.g, m.g.rules[last].rhs, u)
    ensures FirstRule(es, last) < |m.g.rules|
    ensures AllTerminals(m.g, u + Backwards(vs)) && Derives(m.g, m.g.rules[FirstRule(es, last)].rhs, u + Backwards(vs))
    decreases |es|
  {
    hide Derives;
    if es == [] {
      assert u + Backwards(vs) == u;
    } else {
      WalkOn(m, es, last);
      WalkDerives(m, es[1..], vs[1..], last, u);
      var e, w := es[0], u + Backwards(vs[1..]);
      ArcDerives(m, e, FirstRule(es[1..], last), w, vs[0]);
      assert u + Backwards(vs) == w + vs[0];
    }
  }

  lemma ArcDerives(m: Generated, e: Arc, r: nat, w: Form, v: Form)
    requires IsArc(m, e) && r < |m.g.rules| && To(m.g, e) == m.g.rules[r].lhs && Derives(m.g, m.g.rules[r].rhs, w)
    requires Derives(m.g, m.g.rules[e.rule].rhs[e.at + 1..], v)
    ensures Derives(m.g, m.g.rules[e.rule].rhs, w + v)
  {
    hide Derives;
    var rhs, none: Form := m.g.rules[e.rule].rhs, [];
    DerivesByRule(m.g, r);
    DerivesTrans(m.g, [rhs[e.at]], m.g.rules[r].rhs, w);
    DerivesConcat(m.g, [rhs[e.at]], w, rhs[e.at + 1..], v);
    DerivesConcat(m.g, rhs[..e.at], none, [rhs[e.at]] + rhs[e.at + 1..], w + v);
    assert rhs == rhs[..e.at] + ([rhs[e.at]] + rhs[e.at + 1..]);
    assert none + (w + v) == w + v;
  }

  /** Symbols that vanish get on the stack, and no token is shifted. */
  lemma {:induction false} PassesOver(m: Generated, stk: seq<Entry>, r: nat, d: nat, at: nat, w: Form, y: Symbol, input: seq<Symbol>)
    returns (next: seq<Entry>)
    requires Sound(m) && ConflictFree(m.trail) && stk != [] && r < |m.g.rules| && d <= at < |m.g.rules[r].rhs|
    requires InState(m, TopState(stk), Config(r, d)) && Recognizer.Follows(m, TopState(stk), Config(r, d), y) && m.g.IsTerminal(y)
    requires Derives(m.g, m.g.rules[r].rhs[d..at], [])
    requires Derives(m.g, m.g.rules[r].rhs[at..], w) && AllTerminals(m.g, w)
    requires input != [] && input[0] == (w + [y])[0]
    ensures |next| == |stk| + at - d && InState(m, TopState(next), Config(r, at)) && Recognizer.Follows(m, TopState(next), Config(r, at), y)
    ensures Reaches(m, Conf(stk, input), Conf(next, input))
    decreases at - d
  {
    hide Sound, ConflictFree, InState, Recognizer.Follows, Reaches, DerivesIn;
    if d == at {
      next := stk;
      ReachesSame(m, Conf(stk, input));
    } else {
      var rhs, none: Form := m.g.rules[r].rhs, [];
      var x := rhs[d];
      var k: nat :| DerivesIn(m.g, rhs[d..at], none, k);
      assert rhs[d..at] == [x] + rhs[d + 1..at];
      var w1, w2, n1, n2 := SplitDerivation(m.g, [x], rhs[d + 1..at], none, k);
      assert w1 == none && w2 == none;
      assert Derives(m.g, rhs[d + 1..at], none);
      DerivesConcat(m.g, rhs[d + 1..at], none, rhs[at..], w);
      assert rhs[d + 1..] == rhs[d + 1..at] + rhs[at..] && none + w == w;
      var n: nat :| DerivesIn(m.g, rhs[d + 1..], w, n);
      var q := ShiftOver(m, TopState(stk), Config(r, d), x);
      ReadsSymbol(m, stk, Config(r, d), q, none, n1, w, n, y, []);
      var over := stk + [Entry(q, x)];
      assert none + (w + ([y] + [])) == w + [y] == w + ([y] + []);
      ReachesToo(m, stk, over, w + [y], input);
      next := PassesOver(m, over, r, d + 1, at, w, y, input);
      ReachesOn(m, Conf(stk, input), Conf(over, input), Conf(next, input));
    }
  }

  /** Along an arc the parser comes to expect the next rule, and no token is shifted. */
  lemma GoesAlong(m: Generated, stk: seq<Entry>, e: Arc, r: nat, w: Form, v: Form, y: Symbol, input: seq<Symbol>)
    returns (next: seq<Entry>, z: Symbol)
    requires Sound(m) && ConflictFree(m.trail) && stk != [] && IsArc(m, e) && r < |m.g.rules| && To(m.g, e) == m.g.rules[r].lhs
    requires Expected(m, TopState(stk), e.rule, y) && Derives(m.g, m.g.rules[r].rhs, w) && AllTerminals(m.g, w)
    requires Derives(m.g, m.g.rules[e.rule].rhs[e.at + 1..], v) && AllTerminals(m.g, v)
    requires input != [] && input[0] == (w + v + [y])[0]
    ensures |next| == |stk| + e.at && z == (v + [y])[0] && Expected(m, TopState(next), r, z)
    ensures Reaches(m, Conf(stk, input), Conf(next, input))
  {
    hide Sound, ConflictFree, InState, Recognizer.Follows, Reaches, DerivesIn;
    var rhs := m.g.rules[e.rule].rhs;
    DerivesByRule(m.g, r);
    DerivesTrans(m.g, [rhs[e.at]], m.g.rules[r].rhs, w);
    DerivesConcat(m.g, [rhs[e.at]], w, rhs[e.at + 1..], v);
    assert rhs[e.at..] == [rhs[e.at]] + rhs[e.at + 1..];
    assert rhs[0..e.at] == rhs[..e.at];
    next := PassesOver(m, stk, e.rule, 0, e.at, w + v, y, input);
    z := (v + [y])[0];
    var n: nat :| DerivesIn(m.g, rhs[e.at + 1..], v, n);
    Predicted(m, TopState(next), Config(e.rule, e.at), r, v, y, n);
    assert v != [] ==> (v + [y])[0] == v[0];
  }

  /** Along a whole walk. */
  lemma {:induction false} GoesDown(m: Generated, es: seq<Arc>, vs: seq<Form>, last: nat, u: Form, stk: seq<Entry>, y: Symbol, input: seq<Symbol>)
    returns (next: seq<Entry>, z: Symbol)
    requires Sound(m) && ConflictFree(m.trail) && stk != [] && WalkTo(m, es, last) && BehindYields(m, es, vs)
    requires AllTerminals(m.g, u) && Derives(m.g, m.g.rules[last].rhs, u)
    requires Expected(m, TopState(stk), FirstRule(es, last), y) && input != [] && input[0] == (u + Backwards(vs) + [y])[0]
    ensures next != [] && z == (Backwards(vs) + [y])[0] && Expected(m, TopState(next), last, z)
    ensures |stk| <= |next| && ((exists i :: 0 <= i < |es| && es[i].at > 0) ==> |stk| < |next|)
    ensures Reaches(m, Conf(stk, input), Conf(next, input))
    decreases |es|
  {
    hide Sound, ConflictFree, Expected, Reaches, Derives, IsArc;
    if es == [] {
      next, z := stk, y;
      assert Backwards(vs) + [y] == [y];
      ReachesSame(m, Conf(stk, input));
    } else {
      var r, w := FirstRule(es[1..], last), u + Backwards(vs[1..]);
      WalkOn(m, es, last);
      WalkDerives(m, es[1..], vs[1..], last, u);
      assert u + Backwards(vs) + [y] == w + vs[0] + [y];
      var mid, b := GoesAlong(m, stk, es[0], r, w, vs[0], y, input);
      assert input[0] == (w + [b])[0];
      assert Backwards(vs) + [y] == Backwards(vs[1..]) + (vs[0] + [y]);
      next, z := GoesDown(m, es[1..], vs[1..], last, u, mid, b, input);
      if i :| 0 <= i < |es| && es[i].at > 0 {
        assert i > 0 ==> es[1..][i - 1] == es[i];
      }
      ReachesOn(m, Conf(stk, input), Conf(mid, input), Conf(next, input));
    }
  }

  lemma {:induction false} YieldsBehind(m: Generated, es: seq<Arc>) returns (vs: seq<Form>)
    requires Productive(m.g) && IsWalk(m, es)
    ensures BehindYields(m, es, vs)
  {
    hide Productive, DerivesIn, Decider.Nullable, Used;
    vs := [];
    if es != [] {
      assert IsArc(m, es[0]);
      var v, n := Yield(m.g, es[0].rule, es[0].at + 1);
      assert Derives(m.g, m.g.rules[es[0].rule].rhs[es[0].at + 1..], v);
      var more := YieldsBehind(m, es[1..]);
      vs := [v] + more;
      forall i | 0 <= i < |es|
        ensures AllTerminals(m.g, vs[i]) && Derives(m.g, m.g.rules[es[i].rule].rhs[es[i].at + 1..], vs[i])
      {
        if i > 0 { assert es[1..][i - 1] == es[i] && vs[1..][i - 1] == vs[i]; }
      }
    }
  }

  ghost predicate IsCycle(m: Generated, es: seq<Arc>) {
    es != [] && WalkTo(m, es, es[0].rule)
  }

  /** Round and round a cycle the stack grows, if a place in it is not the first of its rule. */
  lemma {:induction false} GoesRound(m: Generated, es: seq<Arc>, vs: seq<Form>, u: Form, stk: seq<Entry>, y: Symbol, input: seq<Symbol>, n: nat)
    returns (next: seq<Entry>)
    requires Sound(m) && ConflictFree(m.trail) && stk != [] && IsCycle(m, es) && BehindYields(m, es, vs)
    requires exists i :: 0 <= i < |es| && es[i].at > 0
    requires AllTerminals(m.g, u) && Derives(m.g, m.g.rules[es[0].rule].rhs, u)
    requires Expected(m, TopState(stk), es[0].rule, y) && input != [] && input[0] == (u + Backwards(vs) + [y])[0]
    ensures |next| >= |stk| + n && Reaches(m, Conf(stk, input), Conf(next, input))
    decreases n
  {
    hide Sound, ConflictFree, Expected, Reaches, Derives, IsWalk, BehindYields;
    if n == 0 {
      next := stk;
      ReachesSame(m, Conf(stk, input));
    } else {
      var mid, z := GoesDown(m, es, vs, es[0].rule, u, stk, y, input);
      assert u + Backwards(vs) + [y] == u + (Backwards(vs) + [y]) && u + Backwards(vs) + [z] == u + (Backwards(vs) + [z]);
      next := GoesRound(m, es, vs, u, mid, z, input, n - 1);
      ReachesOn(m, Conf(stk, input), Conf(mid, input), Conf(next, input));
    }
  }

  lemma CycleUsed(m: Generated, es: seq<Arc>) returns (s: nat)
    requires IsCycle(m, es)
    ensures es[0].rule < |m.g.rules| && InState(m, s, Config(es[0].rule, 0))
  {
    hide Decider.Nullable;
    assert IsArc(m, es[0]);
    s :| s < |m.states| && Config(es[0].rule, 0) in m.states[s].configs;
  }

  /** No cycle has a place that is not the first: a run that ends would not. */
  lemma NoHiddenRecursion(m: Generated, es: seq<Arc>)
    requires Sound(m) && ConflictFree(m.trail) && Productive(m.g) && IsCycle(m, es)
    ensures forall i :: 0 <= i < |es| ==> es[i].at == 0
  {
    hide Sound, ConflictFree, Productive, IsWalk, Derives, DerivesIn, Goes, Stuck, Resumes, BehindYields;
    if exists i :: 0 <= i < |es| && es[i].at > 0 {
      var r := es[0].rule;
      var s := CycleUsed(m, es);
      Context(m, s, Config(r, 0));
      var stk, a, tail :| stk != [] && TopState(stk) == s && Leads(m, stk, Config(r, 0), a, tail);
      var vs := YieldsBehind(m, es);
      var u, n := Yield(m.g, r, 0);
      YieldAll(m.g, r, u, n);
      WalkDerives(m, es, vs, r, u);
      var w := u + Backwards(vs);
      var n1 := DerivesSome(m.g, r, w);
      var input := w + ([a] + tail);
      assert input[0] == (w + [a])[0];
      Finishes(m, stk, Config(r, 0), w, n1, a, tail);
      var d, k: nat :| Goes(m, Conf(stk, input), d, k) && Stuck(m, d);
      var next := GoesRound(m, es, vs, u, stk, a, input, k + 1);
      TooHigh(m, Conf(stk, input), Conf(next, input), d, k);
    }
  }

  lemma YieldAll(g: Grammar, r: nat, u: Form, n: nat)
    requires r < |g.rules| && DerivesIn(g, g.rules[r].rhs[0..], u, n)
    ensures Derives(g, g.rules[r].rhs, u)
  {
    hide DerivesIn;
    assert g.rules[r].rhs[0..] == g.rules[r].rhs;
  }

  lemma DerivesSome(g: Grammar, r: nat, w: Form) returns (n: nat)
    requires r < |g.rules| && Derives(g, g.rules[r].rhs, w)
    ensures DerivesIn(g, g.rules[r].rhs[0..], w, n)
  {
    hide DerivesIn;
    assert g.rules[r].rhs[0..] == g.rules[r].rhs;
    n :| DerivesIn(g, g.rules[r].rhs, w, n);
  }

  lemma TooHigh(m: Generated, c: Conf, e: Conf, d: Conf, k: nat)
    requires Reaches(m, c, e) && Goes(m, c, d, k) && Stuck(m, d)
    ensures |e.stk| <= |c.stk| + k
  {
    hide Goes, Stuck;
    var n: nat :| Goes(m, c, e, n);
    NoHigherThan(m, c, e, n);
    OnTheWay(m, c, d, k, e, n);
  }

  // ---- A symbol that derives itself would be reduced again and again ----

  /** Places that are the first of their rules, with nothing lasting behind them. */
  ghost predicate Unit(m: Generated, es: seq<Arc>) {
    IsWalk(m, es) && forall i :: 0 <= i < |es| ==> es[i].at == 0 && Decider.Nullable(m.g, m.g.rules[es[i].rule].rhs[1..])
  }

  lemma NeverStart(m: Generated, e: Arc)
    requires Sound(m) && IsArc(m, e)
    ensures To(m.g, e) != m.g.start
  {
    hide Pipeline.Explains, FirstSets.ExactSets, TablesSound, IsLr0;
    assert To(m.g, e) in m.g.rules[e.rule].rhs;
  }

  lemma ShiftFor(m: Generated, s: nat, r: nat) returns (q: nat)
    requires Sound(m) && r < |m.g.rules| && InState(m, s, Config(r, 0)) && m.g.rules[r].lhs != m.g.start
    ensures q < |m.states| && Shift(m.g.rules[r].lhs, q) in m.states[s].shifts
  {
    hide Pipeline.Explains, FirstSets.ExactSets, TablesSound, IsLr0;
    GotoExists(m.g, m.states, s, r);
    var k :| 0 <= k < |m.states[s].shifts| && m.states[s].shifts[k].sp == m.g.rules[r].lhs;
    q := m.states[s].shifts[k].target;
    assert m.states[s].shifts[k] == Shift(m.g.rules[r].lhs, q);
    NoShiftOnEnd(m.g, m.states, s, m.states[s].shifts[k]);
  }

  /** One reduction up an arc. */
  lemma ClimbsOne(m: Generated, stk: seq<Entry>, e: Arc, q: nat, y: Symbol, tail: seq<Symbol>) returns (up: nat, n: nat)
    requires Sound(m) && ConflictFree(m.trail) && stk != [] && Unit(m, [e]) && e.rule < |m.g.rules|
    requires Expected(m, TopState(stk), e.rule, y) && From(m.g, e) != m.g.start
    requires e.at < |m.g.rules[e.rule].rhs| && Shift(To(m.g, e), q) in m.states[TopState(stk)].shifts
    ensures up < |m.states| && Shift(From(m.g, e), up) in m.states[TopState(stk)].shifts && n > 0
    ensures Goes(m, Conf(stk + [Entry(q, To(m.g, e))], [y] + tail), Conf(stk + [Entry(up, From(m.g, e))], [y] + tail), n)
  {
    hide Sound, ConflictFree, Moves, DerivesIn, InState, Recognizer.Follows, IsWalk;
    var none: Form := [];
    var rhs, s, c := m.g.rules[e.rule].rhs, TopState(stk), Config(e.rule, 0);
    InRangeOf(m, s, c);
    var p := ShiftOver(m, s, c, rhs[0]);
    assert [e][0] == e;
    SameShift(m, s, rhs[0], p, q);
    var over := stk + [Entry(q, rhs[0])];
    var k: nat :| DerivesIn(m.g, rhs[1..], none, k);
    var ext := ReadsRest(m, over, Advance(c), none, k, y, tail);
    up := ShiftFor(m, s, e.rule);
    var input := [y] + tail;
    assert none + input == input && over + ext == stk + ([Entry(q, rhs[0])] + ext);
    ReduceMoves(m, stk, [Entry(q, rhs[0])] + ext, e.rule, up, input);
    var i: nat :| Goes(m, Conf(over, input), Conf(over + ext, input), i);
    var d := Conf(stk + [Entry(up, From(m.g, e))], input);
    assert Goes(m, d, d, 0);
    assert Goes(m, Conf(over + ext, input), d, 1);
    GoesOn(m, Conf(over, input), Conf(over + ext, input), d, i, 1);
    n := i + 1;
  }

  lemma InRangeOf(m: Generated, s: nat, c: Config)
    requires InState(m, s, c)
    ensures s < |m.states|
  {
  }

  /** Up a walk, from the symbol it ends with to the one it begins with. */
  lemma {:induction false} Climbs(m: Generated, stk: seq<Entry>, es: seq<Arc>, last: nat, q: nat, y: Symbol, tail: seq<Symbol>) returns (up: nat, n: nat)
    requires Sound(m) && ConflictFree(m.trail) && stk != [] && es != [] && Unit(m, es) && WalkTo(m, es, last)
    requires es[0].rule < |m.g.rules| && Expected(m, TopState(stk), es[0].rule, y) && From(m.g, es[0]) != m.g.start
    requires TopState(stk) < |m.states| && Shift(m.g.rules[last].lhs, q) in m.states[TopState(stk)].shifts
    ensures up < |m.states| && Shift(From(m.g, es[0]), up) in m.states[TopState(stk)].shifts && n > 0
    ensures Goes(m, Conf(stk + [Entry(q, m.g.rules[last].lhs)], [y] + tail), Conf(stk + [Entry(up, From(m.g, es[0]))], [y] + tail), n)
    decreases |es|
  {
    hide Sound, ConflictFree, Goes, DerivesIn, Expected, Used;
    var e := es[0];
    assert IsArc(m, e);
    assert Unit(m, [e]);
    if |es| == 1 {
      up, n := ClimbsOne(m, stk, e, q, y, tail);
    } else {
      WalkOn(m, es, last);
      ExpectsNext(m, TopState(stk), e, es[1].rule, y);
      NeverStart(m, e);
      assert Unit(m, es[1..]);
      var p, k := Climbs(m, stk, es[1..], last, q, y, tail);
      up, n := ClimbsOne(m, stk, e, p, y, tail);
      GoesOn(m, Conf(stk + [Entry(q, m.g.rules[last].lhs)], [y] + tail), Conf(stk + [Entry(p, To(m.g, e))], [y] + tail),
             Conf(stk + [Entry(up, From(m.g, e))], [y] + tail), k, n);
      n := k + n;
    }
  }

  lemma ExpectsNext(m: Generated, s: nat, e: Arc, r: nat, y: Symbol)
    requires Sound(m) && Expected(m, s, e.rule, y) && IsArc(m, e) && e.at == 0 && r < |m.g.rules| && To(m.g, e) == m.g.rules[r].lhs
    requires Decider.Nullable(m.g, m.g.rules[e.rule].rhs[1..])
    ensures Expected(m, s, r, y)
  {
    hide Sound, InState, Recognizer.Follows, DerivesIn;
    var none: Form := [];
    var k: nat :| DerivesIn(m.g, m.g.rules[e.rule].rhs[1..], none, k);
    Predicted(m, s, Config(e.rule, 0), r, none, y, k);
    assert none + [y] == [y];
  }

  lemma NoUnitCycle(m: Generated, es: seq<Arc>)
    requires Sound(m) && ConflictFree(m.trail) && Productive(m.g) && IsCycle(m, es)
    ensures !Unit(m, es)
  {
    hide Sound, ConflictFree, Productive, Goes, DerivesIn, Used, Moves;
    if Unit(m, es) {
      var r := es[0].rule;
      var s := CycleUsed(m, es);
      Context(m, s, Config(r, 0));
      var stk, a, tail :| stk != [] && TopState(stk) == s && Leads(m, stk, Config(r, 0), a, tail);
      var lhs := m.g.rules[r].lhs;
      assert IsArc(m, es[|es| - 1]);
      NeverStart(m, es[|es| - 1]);
      assert stk[..|stk|] == stk;
      var q: nat :| ResumesIn(m, stk, lhs, a, tail, q);
      var up, n := Climbs(m, stk, es, r, q, a, tail);
      SameShift(m, s, lhs, q, up);
      var c := Conf(stk + [Entry(q, lhs)], [a] + tail);
      var d, k: nat :| Goes(m, c, d, k) && Stuck(m, d);
      NoReturn(m, c, n, d, k);
    }
  }

  // ---- So the symbols have ranks ----

  /** A walk of at least one arc from a to b that counts: of units only, or with a place that is not the
      first of its rule. */
  ghost predicate Counts(m: Generated, unit: bool, es: seq<Arc>, a: Symbol, b: Symbol) {
    && es != [] && IsWalk(m, es) && IsArc(m, es[0]) && IsArc(m, es[|es| - 1])
    && From(m.g, es[0]) == a && To(m.g, es[|es| - 1]) == b
    && if unit then Unit(m, es) else exists i :: 0 <= i < |es| && es[i].at > 0
  }

  ghost function Beyond(m: Generated, unit: bool, a: Symbol): set<Symbol> {
    set b | b in Actions.Below(m.g.nsymbol) && exists es :: Counts(m, unit, es, a, b)
  }

  lemma NotBeyondItself(m: Generated, unit: bool, a: Symbol)
    requires Sound(m) && ConflictFree(m.trail) && Productive(m.g)
    ensures a !in Beyond(m, unit, a)
  {
    hide Sound, ConflictFree, Productive, Unit, Decider.Nullable, Used;
    if es :| Counts(m, unit, es, a, a) {
      assert IsCycle(m, es);
      if unit {
        NoUnitCycle(m, es);
      } else {
        NoHiddenRecursion(m, es);
      }
    }
  }

  /** In front of a walk that counts comes an arc that is a unit, if only units count. */
  lemma LongerCounts(m: Generated, unit: bool, e: Arc, es: seq<Arc>, b: Symbol)
    requires IsArc(m, e) && Counts(m, unit, es, To(m.g, e), b) && (unit ==> Unit(m, [e]))
    ensures Counts(m, unit, [e] + es, From(m.g, e), b)
  {
    hide Decider.Nullable, Used;
    var all := [e] + es;
    forall i | 0 <= i < |all|
      ensures IsArc(m, all[i])
    {
      if i > 0 { assert all[i] == es[i - 1]; }
    }
    if unit {
      assert [e][0] == e;
      forall i | 0 <= i < |all|
        ensures all[i].at == 0 && Decider.Nullable(m.g, m.g.rules[all[i].rule].rhs[1..])
      {
        if i > 0 { assert all[i] == es[i - 1]; }
      }
    } else {
      var i :| 0 <= i < |es| && es[i].at > 0;
      assert all[i + 1].at > 0;
    }
  }

  lemma LessBeyond(m: Generated, unit: bool, e: Arc)
    requires Sound(m) && ConflictFree(m.trail) && Productive(m.g) && IsArc(m, e) && (unit ==> Unit(m, [e]))
    ensures |Beyond(m, unit, To(m.g, e))| <= |Beyond(m, unit, From(m.g, e))|
    ensures unit || e.at > 0 ==> |Beyond(m, unit, To(m.g, e))| < |Beyond(m, unit, From(m.g, e))|
  {
    hide Sound, ConflictFree, Productive, Unit, Decider.Nullable, Used, Counts;
    var a, b := From(m.g, e), To(m.g, e);
    forall x | x in Beyond(m, unit, b)
      ensures x in Beyond(m, unit, a)
    {
      var es :| Counts(m, unit, es, b, x);
      LongerCounts(m, unit, e, es, x);
    }
    SubsetSize(Beyond(m, unit, b), Beyond(m, unit, a));
    if unit || e.at > 0 {
      NotBeyondItself(m, unit, b);
      OneCounts(m, unit, e);
      SymbolInRange(m, e);
      Actions.InBelow(b, m.g.nsymbol);
      assert b in Beyond(m, unit, a);
      SubsetSize(Beyond(m, unit, b), Beyond(m, unit, a) - {b});
    }
  }

  lemma OneCounts(m: Generated, unit: bool, e: Arc)
    requires IsArc(m, e) && (if unit then Unit(m, [e]) else e.at > 0)
    ensures Counts(m, unit, [e], From(m.g, e), To(m.g, e))
  {
    hide Decider.Nullable, Used, Unit;
    assert [e][0] == e;
  }

  lemma SymbolInRange(m: Generated, e: Arc)
    requires Sound(m) && IsArc(m, e)
    ensures To(m.g, e) < m.g.nsymbol && From(m.g, e) < m.g.nsymbol
  {
    hide Pipeline.Explains, FirstSets.ExactSets, TablesSound, IsLr0, Decider.Nullable, Used;
    assert m.g.RuleOk(m.g.rules[e.rule]);
  }

  ghost function RanksOf(m: Generated): Ranks {
    Ranks(seq(m.g.nsymbol, a requires 0 <= a => |Beyond(m, true, a)|), seq(m.g.nsymbol, a requires 0 <= a => |Beyond(m, false, a)|),
          m.g.nsymbol, Longest(m.g.rules) + 1)
  }

  function Longest(rules: seq<Rule>): (n: nat)
    ensures forall r :: 0 <= r < |rules| ==> |rules[r].rhs| <= n
  {
    if rules == [] then 0 else
      var n := Longest(rules[..|rules| - 1]);
      var k := |rules[|rules| - 1].rhs|;
      if n < k then k else n
  }

  lemma RankIs(m: Generated, a: Symbol)
    requires a < m.g.nsymbol
    ensures RanksOf(m).Up(a) == |Beyond(m, true, a)| && RanksOf(m).Left(a) == |Beyond(m, false, a)|
  {
    hide Counts;
    Actions.CountBelow(m.g.nsymbol);
    SubsetSize(Beyond(m, true, a), Actions.Below(m.g.nsymbol));
    SubsetSize(Beyond(m, false, a), Actions.Below(m.g.nsymbol));
  }

  /** An arc does not go up in rank. */
  lemma ArcFalls(m: Generated, e: Arc)
    requires Sound(m) && ConflictFree(m.trail) && Productive(m.g) && IsArc(m, e)
    ensures RanksOf(m).Left(To(m.g, e)) <= RanksOf(m).Left(From(m.g, e))
    ensures e.at > 0 ==> RanksOf(m).Left(To(m.g, e)) < RanksOf(m).Left(From(m.g, e))
    ensures e.at == 0 && Decider.Nullable(m.g, m.g.rules[e.rule].rhs[1..]) ==> RanksOf(m).Up(To(m.g, e)) < RanksOf(m).Up(From(m.g, e))
  {
    hide Sound, ConflictFree, Productive, Decider.Nullable, Used, Beyond, RanksOf, Ranks.Up, Ranks.Left;
    SymbolInRange(m, e);
    RankIs(m, To(m.g, e));
    RankIs(m, From(m.g, e));
    LessBeyond(m, false, e);
    if e.at == 0 && Decider.Nullable(m.g, m.g.rules[e.rule].rhs[1..]) {
      assert [e][0] == e;
      LessBeyond(m, true, e);
    }
  }

  /** A grammar without conflicts all of whose rules derive something has neither cycles nor hidden left
      recursion in the rules that are in the automaton. */
  lemma HasRanks(m: Generated)
    requires Sound(m) && ConflictFree(m.trail) && Productive(m.g)
    ensures Ranked(m.g, m.states, RanksOf(m))
  {
    hide ConflictFree, Productive, Derives, Used, RanksOf, Ranks.Up, Ranks.Left, IsLr0, Pipeline.Explains, FirstSets.ExactSets, TablesSound;
    var k := RanksOf(m);
    forall r | 0 <= r < |m.g.rules| && Used(m.states, r)
      ensures RuleRanked(m.g, k, m.g.rules[r])
    {
      var rule := m.g.rules[r];
      WidthOf(m, r);
      assert m.g.RuleOk(rule);
      if rule.rhs != [] {
        DerivesRefl(m.g, []);
        assert rule.rhs[..0] == [];
        ArcFalls(m, Arc(r, 0));
      }
      forall d | 0 < d < |rule.rhs| && m.g.IsNonterminal(rule.rhs[d]) && Decider.Nullable(m.g, rule.rhs[..d])
        ensures k.Left(rule.rhs[d]) < k.Left(rule.lhs)
      {
        ArcFalls(m, Arc(r, d));
      }
    }
  }

  lemma WidthOf(m: Generated, r: nat)
    requires r < |m.g.rules|
    ensures |m.g.rules[r].rhs| < RanksOf(m).width
  {
  }

  /** The generated parser of a grammar without conflicts, all of whose rules derive something, decides
      its language: with a stack and a number of steps for each token that depend on the grammar and the
      length of the input only, it accepts if and only if the input is not empty and the start symbol
      derives it, and every call ends. */
  lemma DecidesAll(m: Generated, input: Form)
    requires Sound(m) && ConflictFree(m.trail) && Productive(m.g) && AllTerminals(m.g, input)
    ensures var depth := 1 + Room(RanksOf(m), |input| + 1);
      && (Parses(m.g, m.t, depth, Bound(RanksOf(m), depth), input) <==> input != [] && Derives(m.g, [m.g.start], input))
      && CallsEnd(m.g, m.t, depth, Bound(RanksOf(m), depth), [Entry(0, 0)], input + [0])
  {
    hide Sound, ConflictFree, Productive, Derives, AllTerminals, RanksOf, Ranked, Parses, CallsEnd, Bound, Room;
    HasRanks(m);
    Decides(m, RanksOf(m), input);
  }
}
