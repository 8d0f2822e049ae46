/** FindFirstSets (src/lemon.c): which nonterminals derive the empty string, and which
    terminals can begin what a nonterminal derives. */
module FirstSets {
  import opened Grammar

  ghost predicate Nullable(g: Grammar, s: Symbol) {
    Derives(g, [s], [])
  }

  /** t begins some form that s derives. */
  ghost predicate Begins(g: Grammar, t: Symbol, s: Symbol) {
    exists rest :: Derives(g, [s], [t] + rest)
  }

  predicate AllLambda(lambda: seq<bool>, u: Form) {
    forall i :: 0 <= i < |u| ==> u[i] < |lambda| && lambda[u[i]]
  }

  /** The terminals that can begin u, as far as lambda and first know. */
  ghost function Heads(g: Grammar, lambda: seq<bool>, first: seq<set<Symbol>>, u: Form): set<Symbol>
    requires |lambda| == |first| == g.nsymbol
  {
    if u == [] || u[0] >= g.nsymbol then {}
    else if g.IsTerminal(u[0]) then {u[0]}
    else first[u[0]] + if lambda[u[0]] then Heads(g, lambda, first, u[1..]) else {}
  }

  /** lambda and first say what they should. */
  ghost predicate ExactSets(g: Grammar, lambda: seq<bool>, first: seq<set<Symbol>>) {
    && |lambda| == |first| == g.nsymbol
    && (forall s :: 0 <= s < g.nsymbol ==> (lambda[s] <==> Nullable(g, s)))
    && (forall s: nat, t: nat :: g.IsNonterminal(s) && g.IsTerminal(t) ==> (t in first[s] <==> Begins(g, t, s)))
  }

  // ---- Completeness: a closed lambda, or a closed first, misses nothing ----

  ghost predicate LambdaClosed(g: Grammar, lambda: seq<bool>)
    requires |lambda| == g.nsymbol && g.Valid()
  {
    forall r :: 0 <= r < |g.rules| && AllLambda(lambda, g.rules[r].rhs) ==> lambda[g.rules[r].lhs]
  }

  lemma {:induction false} LambdaComplete(g: Grammar, lambda: seq<bool>, u: Form, n: nat)
    requires |lambda| == g.nsymbol && g.Valid() && LambdaClosed(g, lambda)
    requires DerivesIn(g, u, [], n)
    ensures AllLambda(lambda, u)
    decreases n
  {
    if n > 0 {
      var w :| Step(g, u, w) && DerivesIn(g, w, [], n - 1);
      var i: nat, r: nat :| StepAt(g, u, w, i, r);
      LambdaComplete(g, lambda, w, n - 1);
      var rhs := g.rules[r].rhs;
      assert forall k :: 0 <= k < |rhs| ==> w[i + k] == rhs[k];
      assert lambda[u[i]];
      forall k | 0 <= k < |u|
        ensures u[k] < |lambda| && lambda[u[k]]
      {
        if k < i {
          assert w[k] == u[k];
        } else if k > i {
          assert w[k - 1 + |rhs|] == u[k];
        }
      }
    }
  }

  ghost predicate FirstClosed(g: Grammar, lambda: seq<bool>, first: seq<set<Symbol>>)
    requires |lambda| == |first| == g.nsymbol && g.Valid()
  {
    forall r :: 0 <= r < |g.rules| ==> Heads(g, lambda, first, g.rules[r].rhs) <= first[g.rules[r].lhs]
  }

  lemma {:induction false} HeadsOfConcat(g: Grammar, lambda: seq<bool>, first: seq<set<Symbol>>, u: Form, v: Form)
    requires |lambda| == |first| == g.nsymbol && g.Valid()
    requires forall i :: 0 <= i < |u| ==> u[i] < g.nsymbol
    requires forall s :: 0 <= s < g.nterminal ==> !lambda[s]
    ensures Heads(g, lambda, first, u + v) ==
            Heads(g, lambda, first, u) + if AllLambda(lambda, u) then Heads(g, lambda, first, v) else {}
  {
    if u == [] {
      assert u + v == v;
    } else {
      assert (u + v)[1..] == u[1..] + v;
      HeadsOfConcat(g, lambda, first, u[1..], v);
      assert AllLambda(lambda, u) == (lambda[u[0]] && AllLambda(lambda, u[1..])) by {
        assert u == [u[0]] + u[1..];
      }
    }
  }

  ghost predicate InRange(g: Grammar, u: Form) {
    forall i :: 0 <= i < |u| ==> u[i] < g.nsymbol
  }

  lemma HeadsOfCons(g: Grammar, lambda: seq<bool>, first: seq<set<Symbol>>, s: Symbol, v: Form)
    requires |lambda| == |first| == g.nsymbol && g.IsNonterminal(s)
    ensures Heads(g, lambda, first, [s] + v) == first[s] + if lambda[s] then Heads(g, lambda, first, v) else {}
  {
    assert ([s] + v)[1..] == v;
  }

  /** A derivation step never adds a head. */
  lemma HeadsShrink(g: Grammar, lambda: seq<bool>, first: seq<set<Symbol>>, u: Form, w: Form, i: nat, r: nat)
    requires |lambda| == |first| == g.nsymbol && g.Valid()
    requires forall s :: 0 <= s < g.nterminal ==> !lambda[s]
    requires LambdaClosed(g, lambda) && FirstClosed(g, lambda, first)
    requires InRange(g, u) && StepAt(g, u, w, i, r)
    ensures InRange(g, w) && Heads(g, lambda, first, w) <= Heads(g, lambda, first, u)
  {
    hide Heads;
    var x, y, rhs := u[..i], u[i + 1..], g.rules[r].rhs;
    assert g.RuleOk(g.rules[r]);
    assert u == x + ([u[i]] + y) && w == x + (rhs + y);
    assert InRange(g, x) && InRange(g, rhs);
    HeadsOfConcat(g, lambda, first, x, [u[i]] + y);
    HeadsOfConcat(g, lambda, first, x, rhs + y);
    HeadsOfConcat(g, lambda, first, rhs, y);
    HeadsOfCons(g, lambda, first, u[i], y);
    assert AllLambda(lambda, rhs) ==> lambda[u[i]];
  }

  lemma {:induction false} FirstComplete(g: Grammar, lambda: seq<bool>, first: seq<set<Symbol>>, u: Form, t: Symbol, rest: Form, n: nat)
    requires |lambda| == |first| == g.nsymbol && g.Valid()
    requires forall s :: 0 <= s < g.nterminal ==> !lambda[s]
    requires LambdaClosed(g, lambda) && FirstClosed(g, lambda, first)
    requires InRange(g, u) && g.IsTerminal(t) && DerivesIn(g, u, [t] + rest, n)
    ensures t in Heads(g, lambda, first, u)
    decreases n
  {
    if n > 0 {
      var w :| Step(g, u, w) && DerivesIn(g, w, [t] + rest, n - 1);
      var i: nat, r: nat :| StepAt(g, u, w, i, r);
      HeadsShrink(g, lambda, first, u, w, i, r);
      FirstComplete(g, lambda, first, w, t, rest, n - 1);
    }
  }

  // ---- Soundness: each mark is justified by a derivation ----

  ghost predicate LambdaSound(g: Grammar, lambda: seq<bool>) {
    forall s :: 0 <= s < |lambda| && lambda[s] ==> Nullable(g, s)
  }

  ghost predicate FirstSound(g: Grammar, first: seq<set<Symbol>>) {
    forall s, t :: 0 <= s < |first| && t in first[s] ==> g.IsTerminal(t) && Begins(g, t, s)
  }

  lemma {:induction false} AllLambdaDerivesEmpty(g: Grammar, lambda: seq<bool>, u: Form)
    requires LambdaSound(g, lambda) && AllLambda(lambda, u)
    ensures Derives(g, u, [])
  {
    if u == [] {
      DerivesRefl(g, []);
    } else {
      AllLambdaDerivesEmpty(g, lambda, u[1..]);
      assert Nullable(g, u[0]);
      PrefixVanishes(g, [u[0]], u[1..]);
      assert [u[0]] + u[1..] == u;
      DerivesTrans(g, u, u[1..], []);
    }
  }

  /** With everything before position i of the rule nullable, what begins rhs[i] begins lhs. */
  lemma BeginsThroughRule(g: Grammar, lambda: seq<bool>, r: nat, i: nat, t: Symbol)
    requires r < |g.rules| && i < |g.rules[r].rhs|
    requires LambdaSound(g, lambda) && AllLambda(lambda, g.rules[r].rhs[..i])
    requires Begins(g, t, g.rules[r].rhs[i])
    ensures Begins(g, t, g.rules[r].lhs)
  {
    hide Derives, AllLambda, LambdaSound;
    var rhs := g.rules[r].rhs;
    var rest :| Derives(g, [rhs[i]], [t] + rest);
    var p, q := rhs[..i], rhs[i + 1..];
    assert rhs == p + [rhs[i]] + q;
    DerivesContext(g, p, [rhs[i]], [t] + rest, q);
    AllLambdaDerivesEmpty(g, lambda, p);
    PrefixVanishes(g, p, [t] + rest + q);
    assert p + ([t] + rest) + q == p + ([t] + rest + q);
    DerivesTrans(g, rhs, p + ([t] + rest + q), [t] + rest + q);
    DerivesByRule(g, r);
    DerivesTrans(g, [g.rules[r].lhs], rhs, [t] + rest + q);
    assert [t] + rest + q == [t] + (rest + q);
  }

  lemma PrefixVanishes(g: Grammar, p: Form, v: Form)
    requires Derives(g, p, [])
    ensures Derives(g, p + v, v)
  {
    DerivesContext(g, [], p, [], v);
    assert [] + p + v == p + v && [] + [] + v == v;
  }

  lemma TerminalBeginsItself(g: Grammar, t: Symbol)
    ensures Begins(g, t, t)
  {
    DerivesRefl(g, [t]);
    assert [t] == [t] + [];
  }

  // ---- The two fixpoints ----

  /** First loop: marks every nonterminal that generates the empty string. */
  method FindLambdas(g: Grammar) returns (lambda: seq<bool>)
    requires g.Valid()
    ensures |lambda| == g.nsymbol
    ensures forall s :: 0 <= s < g.nsymbol ==> (lambda[s] <==> Nullable(g, s))
    ensures LambdaClosed(g, lambda)
    ensures forall s :: 0 <= s < g.nterminal ==> !lambda[s]
  {
    lambda := seq(g.nsymbol, _ => false);
    var progress := true;
    while progress
      invariant |lambda| == g.nsymbol
      invariant forall s :: 0 <= s < g.nterminal ==> !lambda[s]
      invariant LambdaSound(g, lambda)
      invariant !progress ==> LambdaClosed(g, lambda)
      decreases Unmarked(lambda), progress
    {
      progress := false;
      ghost var before := lambda;
      for k := 0 to |g.rules|
        invariant |lambda| == g.nsymbol
        invariant forall s :: 0 <= s < g.nterminal ==> !lambda[s]
        invariant LambdaSound(g, lambda)
        invariant !progress ==> lambda == before
        invariant progress ==> Unmarked(lambda) < Unmarked(before)
        invariant !progress ==> forall r :: 0 <= r < k && AllLambda(lambda, g.rules[r].rhs) ==> lambda[g.rules[r].lhs]
      {
        var rule := g.rules[k];
        if lambda[rule.lhs] { continue; }
        var i := 0;
        while i < |rule.rhs|
          invariant 0 <= i <= |rule.rhs| && AllLambda(lambda, rule.rhs[..i])
        {
          if !lambda[rule.rhs[i]] { break; }
          i := i + 1;
        }
        if i == |rule.rhs| {
          assert rule.rhs[..i] == rule.rhs;
          AllLambdaDerivesEmpty(g, lambda, rule.rhs);
          DerivesByRule(g, k);
          DerivesTrans(g, [rule.lhs], rule.rhs, []);
          assert rule.lhs in Unmarked(lambda);
          lambda := lambda[rule.lhs := true];
          progress := true;
        }
      }
    }
    forall s | 0 <= s < g.nsymbol && Nullable(g, s)
      ensures lambda[s]
    {
      var n: nat :| DerivesIn(g, [s], [], n);
      LambdaComplete(g, lambda, [s], n);
      assert [s][0] == s;
    }
  }

  ghost function Unmarked(lambda: seq<bool>): set<nat> {
    set s: nat | s < |lambda| && !lambda[s]
  }

  ghost function Missing(g: Grammar, first: seq<set<Symbol>>): set<(nat, nat)> {
    set s: nat, t: nat | s < |first| && t < g.nterminal && t !in first[s] :: (s, t)
  }

  /** Adding only terminals to first[s] either changes nothing or leaves less missing. */
  lemma MissingShrinks(g: Grammar, first: seq<set<Symbol>>, s: nat, more: set<Symbol>)
    requires s < |first| && forall t :: t in more ==> g.IsTerminal(t)
    ensures more <= first[s] ==> first[s := first[s] + more] == first
    ensures !(more <= first[s]) ==> Missing(g, first[s := first[s] + more]) < Missing(g, first)
  {
    var after := first[s := first[s] + more];
    if more <= first[s] {
      assert first[s] + more == first[s];
    } else {
      var t :| t in more && t !in first[s];
      assert (s, t) in Missing(g, first) && (s, t) !in Missing(g, after);
    }
  }

  /** Second loop: the first set of every nonterminal. */
  method FindFirsts(g: Grammar, lambda: seq<bool>) returns (first: seq<set<Symbol>>)
    requires g.Valid() && |lambda| == g.nsymbol
    requires forall s :: 0 <= s < g.nsymbol ==> (lambda[s] <==> Nullable(g, s))
    requires forall s :: 0 <= s < g.nterminal ==> !lambda[s]
    requires LambdaClosed(g, lambda)
    ensures |first| == g.nsymbol
    ensures forall s: nat, t: nat :: g.IsNonterminal(s) && g.IsTerminal(t) ==> (t in first[s] <==> Begins(g, t, s))
    ensures forall s: nat, t: nat :: g.IsNonterminal(s) && t in first[s] ==> g.IsTerminal(t)
  {
    hide Heads, Missing;
    first := seq(g.nsymbol, _ => {});
    var progress := 1;
    while progress != 0
      invariant |first| == g.nsymbol && progress >= 0
      invariant FirstSound(g, first)
      invariant progress == 0 ==> FirstClosed(g, lambda, first)
      decreases Missing(g, first), progress != 0
    {
      progress := 0;
      ghost var before := first;
      for k := 0 to |g.rules|
        invariant |first| == g.nsymbol && progress >= 0
        invariant FirstSound(g, first)
        invariant progress == 0 ==> first == before
        invariant progress > 0 ==> Missing(g, first) < Missing(g, before)
        invariant progress == 0 ==>
                    forall r :: 0 <= r < k ==> Heads(g, lambda, first, g.rules[r].rhs) <= first[g.rules[r].lhs]
      {
        var added;
        ghost var was := first;
        first, added := ScanRule(g, lambda, first, k);
        progress := progress + added;
      }
    }
    forall s: nat, t: nat | g.IsNonterminal(s) && g.IsTerminal(t) && Begins(g, t, s)
      ensures t in first[s]
    {
      var rest :| Derives(g, [s], [t] + rest);
      var n: nat :| DerivesIn(g, [s], [t] + rest, n);
      FirstComplete(g, lambda, first, [s], t, rest, n);
      HeadsOfOne(g, lambda, first, s);
    }
  }

  lemma HeadsOfOne(g: Grammar, lambda: seq<bool>, first: seq<set<Symbol>>, s: Symbol)
    requires |lambda| == |first| == g.nsymbol && g.IsNonterminal(s)
    ensures Heads(g, lambda, first, [s]) == first[s]
  {
    HeadsOfCons(g, lambda, first, s, []);
    assert [s] + [] == [s];
  }

  /** The inner loop over one right-hand side; `added` counts the sets that changed. */
  method ScanRule(g: Grammar, lambda: seq<bool>, first0: seq<set<Symbol>>, k: nat)
    returns (first: seq<set<Symbol>>, added: nat)
    requires g.Valid() && k < |g.rules| && |lambda| == |first0| == g.nsymbol
    requires LambdaSound(g, lambda) && FirstSound(g, first0)
    requires forall s :: 0 <= s < g.nterminal ==> !lambda[s]
    ensures |first| == g.nsymbol && FirstSound(g, first)
    ensures first == first0[g.rules[k].lhs := first0[g.rules[k].lhs] + Heads(g, lambda, first0, g.rules[k].rhs)]
    ensures added == 0 ==> first == first0 && Heads(g, lambda, first, g.rules[k].rhs) <= first[g.rules[k].lhs]
    ensures added > 0 ==> Missing(g, first) < Missing(g, first0)
  {
    hide Derives, Missing, Begins;
    first, added := first0, 0;
    var rule := g.rules[k];
    var s1 := rule.lhs;
    assert g.RuleOk(rule);
    var i := 0;
    ghost var all := Heads(g, lambda, first0, rule.rhs);
    assert rule.rhs[0..] == rule.rhs;
    while i < |rule.rhs|
      invariant 0 <= i <= |rule.rhs| && AllLambda(lambda, rule.rhs[..i])
      invariant |first| == g.nsymbol && FirstSound(g, first)
      invariant first == first0[s1 := first[s1]] && first0[s1] <= first[s1]
      invariant first[s1] + Heads(g, lambda, first0, rule.rhs[i..]) == first0[s1] + all
      invariant added == 0 ==> first == first0
      invariant added > 0 ==> Missing(g, first) < Missing(g, first0)
    {
      var s2 := rule.rhs[i];
      assert rule.rhs[i..][1..] == rule.rhs[i + 1..];
      assert Heads(g, lambda, first0, rule.rhs[i..]) ==
             if g.IsTerminal(s2) then {s2} else first0[s2] + if lambda[s2] then Heads(g, lambda, first0, rule.rhs[i + 1..]) else {};
      if g.IsTerminal(s2) {
        TerminalBeginsItself(g, s2);
        BeginsThroughRule(g, lambda, k, i, s2);
        MissingShrinks(g, first, s1, {s2});
        if s2 !in first[s1] { added := added + 1; }
        first := first[s1 := first[s1] + {s2}];
        return;
      } else if s1 == s2 {
        if !lambda[s1] {
          assert Heads(g, lambda, first0, rule.rhs[i..]) == first0[s1];
          assert first[s1] == first0[s1] + all;
          return;
        }
      } else {
        forall t | t in first[s2]
          ensures Begins(g, t, s1)
        {
          BeginsThroughRule(g, lambda, k, i, t);
        }
        MissingShrinks(g, first, s1, first[s2]);
        if !(first[s2] <= first[s1]) { added := added + 1; }
        first := first[s1 := first[s1] + first[s2]];
        if !lambda[s2] {
          assert Heads(g, lambda, first0, rule.rhs[i..]) == first0[s2];
          assert first[s1] == first0[s1] + all;
          return;
        }
      }
      assert rule.rhs[..i + 1] == rule.rhs[..i] + [s2];
      i := i + 1;
    }
    assert rule.rhs[i..] == [];
    assert first[s1] == first0[s1] + all;
  }
}
