/** Configurations (items) of the parser generator and the configuration-list builder
    (src/lemon.c, "configlist.c"). */
module Configs {
  import opened Grammar
  import opened FirstSets
  import Msort

  /** A rule with a dot in its right-hand side. */
  datatype Config = Config(rule: nat, dot: nat)

  predicate ConfigOk(g: Grammar, c: Config) {
    c.rule < |g.rules| && c.dot <= |g.rules[c.rule].rhs|
  }

  /** X stands right after the dot. */
  predicate NextIs(g: Grammar, c: Config, x: Symbol) {
    c.rule < |g.rules| && c.dot < |g.rules[c.rule].rhs| && g.rules[c.rule].rhs[c.dot] == x
  }

  /** c predicts rule r: the left-hand side of r stands right after its dot. */
  predicate Predicts(g: Grammar, c: Config, r: nat) {
    r < |g.rules| && NextIs(g, c, g.rules[r].lhs)
  }

  /** What stands after the predicted symbol. */
  function After(g: Grammar, c: Config): Form {
    if c.rule < |g.rules| && c.dot < |g.rules[c.rule].rhs| then g.rules[c.rule].rhs[c.dot + 1..] else []
  }

  function Advance(c: Config): Config {
    Config(c.rule, c.dot + 1)
  }

  function Elements<T>(s: seq<T>): set<T> {
    set x | x in s
  }

  ghost predicate NoDuplicates<T>(s: seq<T>) {
    forall i, j :: 0 <= i < j < |s| ==> s[i] != s[j]
  }

  ghost function AllConfigs(g: Grammar): set<Config> {
    set r: nat, d: nat | r < |g.rules| && d <= |g.rules[r].rhs| :: Config(r, d)
  }

  /** The list sort loses nothing only on lists shorter than its capacity: the grammar is small
      enough that no list of configurations, and no list of a state's actions, is longer. */
  ghost predicate Sortable(g: Grammar) {
    |AllConfigs(g)| * g.nterminal + g.nsymbol + 1 < Msort.Capacity()
  }

  lemma ConfigsFit(g: Grammar)
    requires g.Valid() && Sortable(g)
    ensures |AllConfigs(g)| < Msort.Capacity()
  {
    AtLeastOnce(|AllConfigs(g)|, g.nterminal);
  }

  lemma AtLeastOnce(a: nat, k: nat)
    requires k >= 1
    ensures a <= a * k
  {
  }

  // ---- Order ----

  function ConfigCmp(a: Config, b: Config): int {
    if a.rule != b.rule then a.rule - b.rule else a.dot - b.dot
  }

  ghost predicate Increasing(s: seq<Config>) {
    forall i, j :: 0 <= i < j < |s| ==> ConfigCmp(s[i], s[j]) < 0
  }

  lemma ConfigCmpIsTotal()
    ensures Msort.TotalPreorder(ConfigCmp)
    ensures forall a, b :: ConfigCmp(a, b) == 0 <==> a == b
  {
  }

  lemma {:induction false} SizeOfElements<T>(s: seq<T>)
    requires NoDuplicates(s)
    ensures |Elements(s)| == |s|
  {
    if s != [] {
      var rest := s[..|s| - 1];
      SizeOfElements(rest);
      assert s == rest + [s[|s| - 1]];
      assert Elements(s) == Elements(rest) + {s[|s| - 1]};
    }
  }

  lemma SubsetSize<T>(a: set<T>, b: set<T>)
    requires a <= b
    ensures |a| <= |b|
  {
    assert b == a + (b - a);
  }

  lemma NoElements<T>(s: seq<T>)
    ensures s == [] <==> Elements(s) == {}
  {
    if s != [] { assert s[0] in Elements(s); }
  }

  /** Sorted lists without duplicates are determined by their elements. */
  lemma {:induction false} IncreasingUnique(a: seq<Config>, b: seq<Config>)
    requires Increasing(a) && Increasing(b) && Elements(a) == Elements(b)
    ensures a == b
  {
    NoElements(a);
    NoElements(b);
    if a != [] && b != [] {
      SameFirst(a, b);
      TailElements(a);
      TailElements(b);
      IncreasingUnique(a[1..], b[1..]);
      assert a == [a[0]] + a[1..] && b == [b[0]] + b[1..];
    }
  }

  lemma SameFirst(a: seq<Config>, b: seq<Config>)
    requires Increasing(a) && Increasing(b) && Elements(a) == Elements(b) && a != [] && b != []
    ensures a[0] == b[0]
  {
    assert a[0] in Elements(b) && b[0] in Elements(a);
    var i :| 0 <= i < |b| && b[i] == a[0];
    var j :| 0 <= j < |a| && a[j] == b[0];
    FirstIsLeast(a, j);
    FirstIsLeast(b, i);
  }

  lemma FirstIsLeast(a: seq<Config>, i: nat)
    requires Increasing(a) && i < |a|
    ensures ConfigCmp(a[0], a[i]) <= 0
  {
  }

  lemma TailElements(a: seq<Config>)
    requires a != [] && Increasing(a)
    ensures Elements(a[1..]) == Elements(a) - {a[0]}
  {
    assert a == [a[0]] + a[1..];
    assert forall i :: 1 <= i < |a| ==> ConfigCmp(a[0], a[i]) < 0;
  }

  /** Configlist_sort and Configlist_sortbasis. */
  method SortConfigs(g: Grammar, list: seq<Config>) returns (r: seq<Config>)
    requires g.Valid() && Sortable(g) && NoDuplicates(list) && Elements(list) <= AllConfigs(g)
    ensures Increasing(r) && Elements(r) == Elements(list)
  {
    ConfigCmpIsTotal();
    ConfigsFit(g);
    SizeOfElements(list);
    SubsetSize(Elements(list), AllConfigs(g));
    r := Msort.Sort(ConfigCmp, list);
    Msort.SortedDistinct(ConfigCmp, list, r);
    forall x
      ensures x in list <==> x in r
    {
      Msort.StableSortContains(ConfigCmp, list, r, x);
    }
  }

  // ---- Closure ----

  ghost predicate PredictionClosed(g: Grammar, items: set<Config>) {
    forall c, r :: c in items && Predicts(g, c, r) ==> Config(r, 0) in items
  }

  /** `items` is the least prediction-closed set around `basis`. */
  ghost predicate IsClosureOf(g: Grammar, basis: set<Config>, items: set<Config>) {
    && basis <= items
    && PredictionClosed(g, items)
    && forall other :: basis <= other && PredictionClosed(g, other) ==> items <= other
  }

  /** A configuration that no other one predicts, and that was not in the basis, would not be
      in the closure. */
  lemma ClosureItemIsPredicted(g: Grammar, basis: set<Config>, items: set<Config>, c: Config)
    requires IsClosureOf(g, basis, items) && c in items && c !in basis
    ensures c.dot == 0 && exists d :: d in items && Predicts(g, d, c.rule)
  {
    var other := items - {c};
    assert !PredictionClosed(g, other);
    var d, r :| d in other && Predicts(g, d, r) && Config(r, 0) !in other;
    assert Config(r, 0) in items;
  }

  /** Follow-set propagation links between configurations of one state. */
  type Links = set<(Config, Config)>

  type Follows = map<Config, set<Symbol>>

  function FollowOf(fws: Follows, c: Config): set<Symbol> {
    if c in fws then fws[c] else {}
  }

  /** The first-rule configurations d predicts, for rules from k on. */
  ghost function PredictedFrom(g: Grammar, d: Config, k: nat): set<Config> {
    set r: nat | k <= r < |g.rules| && Predicts(g, d, r) :: Config(r, 0)
  }

  ghost function Fan(d: Config, cs: set<Config>): Links {
    set c | c in cs :: (d, c)
  }

  /** The lookaheads d sends to c of its own accord. */
  ghost function Sends(g: Grammar, lambda: seq<bool>, first: seq<set<Symbol>>, d: Config, c: Config): set<Symbol>
    requires |lambda| == |first| == g.nsymbol
  {
    if c in PredictedFrom(g, d, 0) then Heads(g, lambda, first, After(g, d)) else {}
  }

  /** What the first n configurations of the list send to c. */
  ghost function Sent(g: Grammar, lambda: seq<bool>, first: seq<set<Symbol>>, cs: seq<Config>, n: nat, c: Config): set<Symbol>
    requires n <= |cs| && |lambda| == |first| == g.nsymbol
  {
    if n == 0 then {} else Sent(g, lambda, first, cs, n - 1, c) + Sends(g, lambda, first, cs[n - 1], c)
  }

  /** The links from d: to all it predicts, if what follows may vanish. */
  ghost function LinksFrom(g: Grammar, lambda: seq<bool>, d: Config): Links {
    if AllLambda(lambda, After(g, d)) then Fan(d, PredictedFrom(g, d, 0)) else {}
  }

  ghost function LinksOf(g: Grammar, lambda: seq<bool>, cs: seq<Config>, n: nat): Links
    requires n <= |cs|
  {
    if n == 0 then {} else LinksOf(g, lambda, cs, n - 1) + LinksFrom(g, lambda, cs[n - 1])
  }

  /** Follow sets hold what they started with and what the first n configurations send. */
  ghost predicate FollowsOk(g: Grammar, lambda: seq<bool>, first: seq<set<Symbol>>, fws0: Follows,
                            cs: seq<Config>, n: nat, fws: Follows)
    requires n <= |cs| && |lambda| == |first| == g.nsymbol
  {
    && fws.Keys == Elements(cs)
    && forall c :: c in fws ==> fws[c] == FollowOf(fws0, c) + Sent(g, lambda, first, cs, n, c)
  }

  lemma {:induction false} SentMeans(g: Grammar, lambda: seq<bool>, first: seq<set<Symbol>>, cs: seq<Config>, n: nat, c: Config, t: Symbol)
    requires n <= |cs| && |lambda| == |first| == g.nsymbol
    ensures t in Sent(g, lambda, first, cs, n, c) <==> exists i :: 0 <= i < n && t in Sends(g, lambda, first, cs[i], c)
  {
    hide Sends;
    if n > 0 {
      SentMeans(g, lambda, first, cs, n - 1, c, t);
    }
  }

  lemma {:induction false} SentPrefix(g: Grammar, lambda: seq<bool>, first: seq<set<Symbol>>, cs: seq<Config>, cs': seq<Config>, n: nat, c: Config)
    requires n <= |cs| && cs <= cs' && |lambda| == |first| == g.nsymbol
    ensures Sent(g, lambda, first, cs, n, c) == Sent(g, lambda, first, cs', n, c)
  {
    hide Sends;
    if n > 0 {
      SentPrefix(g, lambda, first, cs, cs', n - 1, c);
    }
  }

  lemma {:induction false} LinksPrefix(g: Grammar, lambda: seq<bool>, cs: seq<Config>, cs': seq<Config>, n: nat)
    requires n <= |cs| && cs <= cs'
    ensures LinksOf(g, lambda, cs, n) == LinksOf(g, lambda, cs', n)
  {
    hide LinksFrom;
    if n > 0 {
      LinksPrefix(g, lambda, cs, cs', n - 1);
    }
  }

  lemma {:induction false} LinksMean(g: Grammar, lambda: seq<bool>, cs: seq<Config>, n: nat, d: Config, c: Config)
    requires n <= |cs|
    ensures (d, c) in LinksOf(g, lambda, cs, n) <==>
            d in cs[..n] && c in PredictedFrom(g, d, 0) && AllLambda(lambda, After(g, d))
  {
    hide AllLambda, PredictedFrom, After;
    if n > 0 {
      LinksMean(g, lambda, cs, n - 1, d, c);
      assert cs[..n] == cs[..n - 1] + [cs[n - 1]];
    }
  }

  /** The loop over what follows the predicted symbol. */
  method ScanAfter(g: Grammar, lambda: seq<bool>, first: seq<set<Symbol>>, rest: Form)
    returns (heads: set<Symbol>, vanishes: bool)
    requires g.Valid() && |lambda| == |first| == g.nsymbol && InRange(g, rest)
    requires forall s :: 0 <= s < g.nterminal ==> !lambda[s]
    ensures heads == Heads(g, lambda, first, rest)
    ensures vanishes == AllLambda(lambda, rest)
  {
    heads := {};
    var i := 0;
    assert rest[0..] == rest;
    while i < |rest|
      invariant 0 <= i <= |rest| && AllLambda(lambda, rest[..i])
      invariant Heads(g, lambda, first, rest) == heads + Heads(g, lambda, first, rest[i..])
    {
      var x := rest[i];
      assert rest[i..][1..] == rest[i + 1..];
      if g.IsTerminal(x) {
        return heads + {x}, false;
      }
      heads := heads + first[x];
      if !lambda[x] {
        return heads, false;
      }
      assert rest[..i + 1] == rest[..i] + [x];
      i := i + 1;
    }
    assert rest[..i] == rest;
    vanishes := true;
  }

  /** The body of the closure loop: configuration d adds what it predicts to the list, feeds
      its lookaheads to them, and links to them if what follows may vanish. */
  method Expand(g: Grammar, lambda: seq<bool>, first: seq<set<Symbol>>, d: Config, cs0: seq<Config>, fws0: Follows, links0: Links)
    returns (cs: seq<Config>, fws: Follows, links: Links)
    requires g.Valid() && |lambda| == |first| == g.nsymbol
    requires forall s :: 0 <= s < g.nterminal ==> !lambda[s]
    requires ConfigOk(g, d) && NoDuplicates(cs0) && fws0.Keys == Elements(cs0)
    ensures Extended(d, cs0, fws0, links0, cs, fws, links,
                     PredictedFrom(g, d, 0), Heads(g, lambda, first, After(g, d)), AllLambda(lambda, After(g, d)))
  {
    hide Heads, AllLambda, Extended;
    cs, fws, links := cs0, fws0, links0;
    ExtendedNone(d, cs0, fws0, links0, Heads(g, lambda, first, After(g, d)), AllLambda(lambda, After(g, d)));
    if d.dot >= |g.rules[d.rule].rhs| {
      assert PredictedFrom(g, d, 0) == {};
      return;
    }
    var sp := g.rules[d.rule].rhs[d.dot];
    assert g.RuleOk(g.rules[d.rule]);
    if !g.IsNonterminal(sp) {
      OnlyNonterminalsPredict(g, d, sp);
      return;
    }
    var heads, vanishes := ScanAfter(g, lambda, first, After(g, d));
    var k := |g.rules|;
    ghost var targets: set<Config> := {};
    while k > 0
      invariant 0 <= k <= |g.rules| && targets == PredictedFrom(g, d, k)
      invariant Extended(d, cs0, fws0, links0, cs, fws, links, targets, heads, vanishes)
    {
      k := k - 1;
      PredictedStep(g, d, k);
      if g.rules[k].lhs == sp {
        ExtendedMore(d, cs0, fws0, links0, cs, fws, links, targets, heads, vanishes, Config(k, 0));
        targets := targets + {Config(k, 0)};
        if Config(k, 0) !in cs { cs := cs + [Config(k, 0)]; }
        fws := fws[Config(k, 0) := FollowOf(fws, Config(k, 0)) + heads];
        if vanishes { links := links + {(d, Config(k, 0))}; }
      }
    }
  }

  /** The list, follow sets and links after d has added `targets`. */
  ghost predicate Extended(d: Config, cs0: seq<Config>, fws0: Follows, links0: Links, cs: seq<Config>, fws: Follows, links: Links,
                           targets: set<Config>, heads: set<Symbol>, vanishes: bool) {
    && cs0 <= cs && NoDuplicates(cs)
    && Elements(cs) == Elements(cs0) + targets
    && fws.Keys == Elements(cs)
    && Fed(fws0, fws, targets, heads)
    && links == links0 + if vanishes then Fan(d, targets) else {}
  }

  lemma OnlyNonterminalsPredict(g: Grammar, d: Config, sp: Symbol)
    requires g.Valid() && NextIs(g, d, sp) && !g.IsNonterminal(sp)
    ensures PredictedFrom(g, d, 0) == {}
  {
    forall r: nat | r < |g.rules|
      ensures !Predicts(g, d, r)
    {
      assert g.RuleOk(g.rules[r]);
    }
  }

  lemma ExtendedNone(d: Config, cs: seq<Config>, fws: Follows, links: Links, heads: set<Symbol>, vanishes: bool)
    requires NoDuplicates(cs) && fws.Keys == Elements(cs)
    ensures Extended(d, cs, fws, links, cs, fws, links, {}, heads, vanishes)
  {
    assert Fan(d, {}) == {};
  }

  lemma ExtendedMore(d: Config, cs0: seq<Config>, fws0: Follows, links0: Links, cs: seq<Config>, fws: Follows, links: Links,
                     targets: set<Config>, heads: set<Symbol>, vanishes: bool, c: Config)
    requires Extended(d, cs0, fws0, links0, cs, fws, links, targets, heads, vanishes)
    requires fws0.Keys == Elements(cs0) && c !in targets
    ensures Extended(d, cs0, fws0, links0, if c in cs then cs else cs + [c], fws[c := FollowOf(fws, c) + heads],
                     if vanishes then links + {(d, c)} else links, targets + {c}, heads, vanishes)
  {
    var cs' := if c in cs then cs else cs + [c];
    assert Elements(cs') == Elements(cs) + {c};
    FedMore(fws0, fws, targets, heads, c);
    assert Fan(d, targets + {c}) == Fan(d, targets) + {(d, c)};
  }

  lemma PredictedStep(g: Grammar, d: Config, k: nat)
    requires k < |g.rules|
    ensures PredictedFrom(g, d, k) == PredictedFrom(g, d, k + 1) + if Predicts(g, d, k) then {Config(k, 0)} else {}
  {
  }

  /** Exactly the configurations in `targets` have been fed `heads`. */
  ghost predicate Fed(fws0: Follows, fws: Follows, targets: set<Config>, heads: set<Symbol>) {
    forall c :: c in fws ==> fws[c] == FollowOf(fws0, c) + if c in targets then heads else {}
  }

  lemma FedMore(fws0: Follows, fws: Follows, targets: set<Config>, heads: set<Symbol>, c: Config)
    requires Fed(fws0, fws, targets, heads)
    requires c !in fws ==> c !in fws0
    requires c !in targets
    ensures Fed(fws0, fws[c := FollowOf(fws, c) + heads], targets + {c}, heads)
  {
  }

  /** Configlist_closure: the least prediction-closed list around the basis, without duplicates. */
  method Closure(g: Grammar, lambda: seq<bool>, first: seq<set<Symbol>>, basis: seq<Config>, fws0: Follows)
    returns (cs: seq<Config>, fws: Follows, links: Links)
    requires g.Valid() && |lambda| == |first| == g.nsymbol
    requires forall s :: 0 <= s < g.nterminal ==> !lambda[s]
    requires NoDuplicates(basis) && Elements(basis) <= AllConfigs(g) && fws0.Keys == Elements(basis)
    ensures NoDuplicates(cs) && Elements(cs) <= AllConfigs(g)
    ensures IsClosureOf(g, Elements(basis), Elements(cs))
    ensures FollowsOk(g, lambda, first, fws0, cs, |cs|, fws)
    ensures links == LinksOf(g, lambda, cs, |cs|)
  {
    hide Heads, AllLambda, After, PredictedFrom, Extended, Closing, IsClosureOf;
    cs, fws, links := basis, fws0, {};
    var i := 0;
    ClosingStart(g, lambda, first, basis, fws0);
    while i < |cs|
      invariant i <= |cs| <= |AllConfigs(g)|
      invariant Closing(g, lambda, first, basis, fws0, cs, i, fws, links)
      decreases |AllConfigs(g)| - i
    {
      ghost var before, fwsBefore, linksBefore := cs, fws, links;
      ClosingFacts(g, lambda, first, basis, fws0, cs, i, fws, links);
      cs, fws, links := Expand(g, lambda, first, cs[i], cs, fws, links);
      ClosingStep(g, lambda, first, basis, fws0, before, i, fwsBefore, linksBefore, cs, fws, links);
      i := i + 1;
      ClosingFacts(g, lambda, first, basis, fws0, cs, i, fws, links);
    }
    ClosingFacts(g, lambda, first, basis, fws0, cs, i, fws, links);
    ClosingDone(g, lambda, first, basis, fws0, cs, fws, links);
  }

  /** The closure loop with the first i configurations expanded. */
  ghost predicate Closing(g: Grammar, lambda: seq<bool>, first: seq<set<Symbol>>, basis: seq<Config>, fws0: Follows,
                          cs: seq<Config>, i: nat, fws: Follows, links: Links)
    requires |lambda| == |first| == g.nsymbol
  {
    && i <= |cs| <= |AllConfigs(g)|
    && basis <= cs && NoDuplicates(cs) && Elements(cs) <= AllConfigs(g)
    && (forall j :: 0 <= j < i ==> PredictedFrom(g, cs[j], 0) <= Elements(cs))
    && (forall other :: Elements(basis) <= other && PredictionClosed(g, other) ==> Elements(cs) <= other)
    && FollowsOk(g, lambda, first, fws0, cs, i, fws)
    && links == LinksOf(g, lambda, cs, i)
  }

  lemma ClosingStart(g: Grammar, lambda: seq<bool>, first: seq<set<Symbol>>, basis: seq<Config>, fws0: Follows)
    requires |lambda| == |first| == g.nsymbol
    requires NoDuplicates(basis) && Elements(basis) <= AllConfigs(g) && fws0.Keys == Elements(basis)
    ensures Closing(g, lambda, first, basis, fws0, basis, 0, fws0, {})
  {
    SizeOfElements(basis);
    SubsetSize(Elements(basis), AllConfigs(g));
  }

  lemma ClosingFacts(g: Grammar, lambda: seq<bool>, first: seq<set<Symbol>>, basis: seq<Config>, fws0: Follows,
                     cs: seq<Config>, i: nat, fws: Follows, links: Links)
    requires |lambda| == |first| == g.nsymbol
    requires Closing(g, lambda, first, basis, fws0, cs, i, fws, links)
    ensures i <= |cs| <= |AllConfigs(g)| && NoDuplicates(cs) && Elements(cs) <= AllConfigs(g)
    ensures fws.Keys == Elements(cs) && Elements(basis) <= Elements(cs)
    ensures i < |cs| ==> ConfigOk(g, cs[i])
    ensures FollowsOk(g, lambda, first, fws0, cs, i, fws) && links == LinksOf(g, lambda, cs, i)
  {
    if i < |cs| { assert cs[i] in Elements(cs); }
  }

  lemma ClosingStep(g: Grammar, lambda: seq<bool>, first: seq<set<Symbol>>, basis: seq<Config>, fws0: Follows,
                    cs: seq<Config>, i: nat, fws: Follows, links: Links, cs': seq<Config>, fws': Follows, links': Links)
    requires |lambda| == |first| == g.nsymbol
    requires Closing(g, lambda, first, basis, fws0, cs, i, fws, links) && i < |cs|
    requires fws0.Keys <= Elements(cs)
    requires Extended(cs[i], cs, fws, links, cs', fws', links', PredictedFrom(g, cs[i], 0),
                      Heads(g, lambda, first, After(g, cs[i])), AllLambda(lambda, After(g, cs[i])))
    ensures Closing(g, lambda, first, basis, fws0, cs', i + 1, fws', links')
  {
    hide Heads, AllLambda, After, Sent, PredictionClosed, Fed, PredictedFrom;
    assert Elements(cs') <= AllConfigs(g) && |cs'| <= |AllConfigs(g)| by {
      PredictedInAll(g, cs[i]);
      SizeOfElements(cs');
      SubsetSize(Elements(cs'), AllConfigs(g));
    }
    LeastStep(g, basis, cs, cs[i], cs');
    assert FollowsOk(g, lambda, first, fws0, cs', i + 1, fws') by {
      FollowsStep(g, lambda, first, fws0, cs, cs', i, fws, fws');
    }
    LinksPrefix(g, lambda, cs, cs', i);
  }

  lemma ClosingDone(g: Grammar, lambda: seq<bool>, first: seq<set<Symbol>>, basis: seq<Config>, fws0: Follows,
                    cs: seq<Config>, fws: Follows, links: Links)
    requires |lambda| == |first| == g.nsymbol
    requires Closing(g, lambda, first, basis, fws0, cs, |cs|, fws, links)
    ensures IsClosureOf(g, Elements(basis), Elements(cs))
  {
    hide Heads, AllLambda, FollowsOk, LinksOf, After;
    forall c, r | c in Elements(cs) && Predicts(g, c, r)
      ensures Config(r, 0) in Elements(cs)
    {
      var j :| 0 <= j < |cs| && cs[j] == c;
      assert Config(r, 0) in PredictedFrom(g, cs[j], 0);
    }
  }

  lemma PredictedInAll(g: Grammar, d: Config)
    ensures PredictedFrom(g, d, 0) <= AllConfigs(g)
  {
  }

  lemma LeastStep(g: Grammar, basis: seq<Config>, cs: seq<Config>, d: Config, cs': seq<Config>)
    requires d in cs && Elements(cs') == Elements(cs) + PredictedFrom(g, d, 0)
    requires forall other :: Elements(basis) <= other && PredictionClosed(g, other) ==> Elements(cs) <= other
    ensures forall other :: Elements(basis) <= other && PredictionClosed(g, other) ==> Elements(cs') <= other
  {
    forall other | Elements(basis) <= other && PredictionClosed(g, other)
      ensures Elements(cs') <= other
    {
      assert d in Elements(cs) && d in other;
    }
  }

  lemma FollowsStep(g: Grammar, lambda: seq<bool>, first: seq<set<Symbol>>, fws0: Follows,
                    cs: seq<Config>, cs': seq<Config>, n: nat, fws: Follows, fws': Follows)
    requires |lambda| == |first| == g.nsymbol && n < |cs| && cs <= cs'
    requires FollowsOk(g, lambda, first, fws0, cs, n, fws) && fws'.Keys == Elements(cs')
    requires fws0.Keys <= Elements(cs)
    requires forall j :: 0 <= j < n ==> PredictedFrom(g, cs[j], 0) <= Elements(cs)
    requires Fed(fws, fws', PredictedFrom(g, cs[n], 0), Heads(g, lambda, first, After(g, cs[n])))
    ensures FollowsOk(g, lambda, first, fws0, cs', n + 1, fws')
  {
    hide Heads, AllLambda, After, PredictedFrom;
    forall c | c in fws'
      ensures fws'[c] == FollowOf(fws0, c) + Sent(g, lambda, first, cs', n + 1, c)
    {
      SentPrefix(g, lambda, first, cs, cs', n, c);
      if c !in fws {
        SentNothing(g, lambda, first, cs, n, c);
      }
    }
  }

  lemma {:induction false} SentNothing(g: Grammar, lambda: seq<bool>, first: seq<set<Symbol>>, cs: seq<Config>, n: nat, c: Config)
    requires |lambda| == |first| == g.nsymbol && n <= |cs|
    requires forall j :: 0 <= j < n ==> PredictedFrom(g, cs[j], 0) <= Elements(cs)
    requires c !in Elements(cs)
    ensures Sent(g, lambda, first, cs, n, c) == {}
  {
    hide Heads, AllLambda, After, PredictedFrom;
    if n > 0 {
      SentNothing(g, lambda, first, cs, n - 1, c);
    }
  }
}
