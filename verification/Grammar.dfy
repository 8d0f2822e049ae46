/** Context-free grammars as the parser generator holds them after reading a grammar file
    (src/lemon.c: struct symbol, struct rule), and what a grammar derives. */
module Grammar {
  import opened Options

  /** Symbols are their index: terminals come first, 0 is the end marker "$". */
  type Symbol = nat

  type Form = seq<Symbol>

  datatype Assoc = LeftAssoc | RightAssoc | NonAssoc

  /** A declared precedence: %left, %right and %nonassoc give both parts together. */
  datatype Precedence = Precedence(level: nat, assoc: Assoc)

  datatype Rule = Rule(lhs: Symbol, rhs: Form, precsym: Option<Symbol>)

  datatype Grammar = Grammar(
    nterminal: nat,
    nsymbol: nat,
    rules: seq<Rule>,
    start: Symbol,
    errsym: Symbol,
    precedence: map<Symbol, Precedence>)
  {
    predicate IsTerminal(s: Symbol) {
      s < nterminal
    }

    predicate IsNonterminal(s: Symbol) {
      nterminal <= s < nsymbol
    }

    ghost predicate Valid() {
      && 0 < nterminal
      && IsNonterminal(start) && IsNonterminal(errsym)
      && (forall r :: 0 <= r < |rules| ==> RuleOk(rules[r]))
      && exists r :: 0 <= r < |rules| && rules[r].lhs == start
    }

    ghost predicate RuleOk(rule: Rule) {
      && IsNonterminal(rule.lhs)
      && forall i :: 0 <= i < |rule.rhs| ==> rule.rhs[i] < nsymbol
    }

    /** The grammars that are read and turned into states without an error: no rule mentions
        the end marker or the start symbol on its right. */
    ghost predicate Accepted() {
      && Valid()
      && forall r :: 0 <= r < |rules| ==> start !in rules[r].rhs && 0 !in rules[r].rhs
    }

    /** Nothing keeps a grammar from having rules for "error"; usually there are none. */
    ghost predicate NoErrorRule() {
      forall r :: 0 <= r < |rules| ==> rules[r].lhs != errsym
    }
  }

  predicate StepAt(g: Grammar, u: Form, v: Form, i: nat, r: nat) {
    i < |u| && r < |g.rules| && u[i] == g.rules[r].lhs && v == u[..i] + g.rules[r].rhs + u[i + 1..]
  }

  /** One replacement of a nonterminal by the right-hand side of one of its rules. */
  ghost predicate Step(g: Grammar, u: Form, v: Form) {
    exists i: nat, r: nat :: StepAt(g, u, v, i, r)
  }

  ghost predicate DerivesIn(g: Grammar, u: Form, v: Form, n: nat)
    decreases n
  {
    if n == 0 then u == v else exists w :: Step(g, u, w) && DerivesIn(g, w, v, n - 1)
  }

  ghost predicate Derives(g: Grammar, u: Form, v: Form) {
    exists n: nat :: DerivesIn(g, u, v, n)
  }

  lemma DerivesRefl(g: Grammar, u: Form)
    ensures Derives(g, u, u)
  {
    assert DerivesIn(g, u, u, 0);
  }

  lemma {:induction false} DerivesInTrans(g: Grammar, u: Form, v: Form, w: Form, m: nat, n: nat)
    requires DerivesIn(g, u, v, m) && DerivesIn(g, v, w, n)
    ensures DerivesIn(g, u, w, m + n)
    decreases m
  {
    if m > 0 {
      var x :| Step(g, u, x) && DerivesIn(g, x, v, m - 1);
      DerivesInTrans(g, x, v, w, m - 1, n);
    }
  }

  lemma DerivesTrans(g: Grammar, u: Form, v: Form, w: Form)
    requires Derives(g, u, v) && Derives(g, v, w)
    ensures Derives(g, u, w)
  {
    var m: nat :| DerivesIn(g, u, v, m);
    var n: nat :| DerivesIn(g, v, w, n);
    DerivesInTrans(g, u, v, w, m, n);
  }

  lemma StepInContext(g: Grammar, x: Form, u: Form, v: Form, y: Form)
    requires Step(g, u, v)
    ensures Step(g, x + u + y, x + v + y)
  {
    var i: nat, r: nat :| StepAt(g, u, v, i, r);
    var big := x + u + y;
    assert big[..|x| + i] == x + u[..i];
    assert big[|x| + i + 1..] == u[i + 1..] + y;
    assert StepAt(g, big, x + v + y, |x| + i, r);
  }

  lemma {:induction false} DerivesInContext(g: Grammar, x: Form, u: Form, v: Form, y: Form, n: nat)
    requires DerivesIn(g, u, v, n)
    ensures DerivesIn(g, x + u + y, x + v + y, n)
    decreases n
  {
    if n > 0 {
      var w :| Step(g, u, w) && DerivesIn(g, w, v, n - 1);
      StepInContext(g, x, u, w, y);
      DerivesInContext(g, x, w, v, y, n - 1);
    }
  }

  lemma DerivesContext(g: Grammar, x: Form, u: Form, v: Form, y: Form)
    requires Derives(g, u, v)
    ensures Derives(g, x + u + y, x + v + y)
  {
    var n: nat :| DerivesIn(g, u, v, n);
    DerivesInContext(g, x, u, v, y, n);
  }

  lemma DerivesConcat(g: Grammar, a: Form, u: Form, b: Form, v: Form)
    requires Derives(g, a, u) && Derives(g, b, v)
    ensures Derives(g, a + b, u + v)
  {
    DerivesContext(g, [], a, u, b);
    DerivesContext(g, u, b, v, []);
    assert [] + a + b == a + b && [] + u + b == u + b;
    assert u + b + [] == u + b && u + v + [] == u + v;
    DerivesTrans(g, a + b, u + b, u + v);
  }

  lemma DerivesByRule(g: Grammar, r: nat)
    requires r < |g.rules|
    ensures Derives(g, [g.rules[r].lhs], g.rules[r].rhs)
  {
    var u, v := [g.rules[r].lhs], g.rules[r].rhs;
    assert u[..0] + v + u[1..] == v;
    assert StepAt(g, u, v, 0, r);
    assert Step(g, u, v) && DerivesIn(g, v, v, 0);
    assert DerivesIn(g, u, v, 1);
  }
}
