/** CompressTables (src/lemon.c): the most frequent reduce of a state becomes its default. */
module Compress {
  import opened Options
  import opened Grammar
  import opened Configs
  import opened Actions
  import Msort

  predicate Reduces(a: Action, r: nat) {
    a.kind == REDUCE && a.arg == r
  }

  /** How many live reduces by rule r stand at position k or later. */
  ghost function Count(acts: seq<Action>, k: nat, r: nat): nat
    requires k <= |acts|
    decreases |acts| - k
  {
    if k == |acts| then 0 else (if Reduces(acts[k], r) then 1 else 0) + Count(acts, k + 1, r)
  }

  /** `best` is a most frequent reduce used at least twice, if there is one. */
  ghost predicate IsDefault(acts: seq<Action>, best: Option<nat>) {
    match best
    case None => forall r :: Count(acts, 0, r) < 2
    case Some(rb) => Count(acts, 0, rb) >= 2 && forall r :: Count(acts, 0, r) <= Count(acts, 0, rb)
  }

  /** The live actions after compression: those by other means than `best` stay, and one
      reduce by `best` stands on the default symbol. */
  predicate Kept(g: Grammar, acts: seq<Action>, best: Option<nat>, a: Action) {
    match best
    case None => a in acts
    case Some(rb) => (a in acts && !Reduces(a, rb)) || a == Action(g.nsymbol, REDUCE, rb)
  }

  lemma {:induction false} CountFrom(acts: seq<Action>, k: nat, r: nat)
    requires k <= |acts|
    ensures Count(acts, k, r) <= Count(acts, 0, r)
    ensures (forall m :: 0 <= m < k ==> !Reduces(acts[m], r)) ==> Count(acts, k, r) == Count(acts, 0, r)
  {
    if k > 0 { CountFrom(acts, k - 1, r); }
  }

  lemma {:induction false} CountZero(acts: seq<Action>, k: nat, r: nat)
    requires k <= |acts| && forall m :: k <= m < |acts| ==> !Reduces(acts[m], r)
    ensures Count(acts, k, r) == 0
    decreases |acts| - k
  {
    if k < |acts| { CountZero(acts, k + 1, r); }
  }

  /** All rules reduced before this position are reduced less often. */
  ghost predicate BeatenBefore(acts: seq<Action>, at: nat, n: nat)
    requires at <= |acts|
  {
    forall m :: 0 <= m < at && acts[m].kind == REDUCE ==> Count(acts, 0, acts[m].arg) < n
  }

  /** The first nest of loops: the most frequent rule, the first of them in the list, and its count. */
  method MostFrequent(acts: seq<Action>) returns (nbest: nat, rbest: int)
    ensures forall r :: Count(acts, 0, r) <= nbest
    ensures nbest > 0 ==> rbest >= 0 && Count(acts, 0, rbest) == nbest
    ensures nbest > 0 ==> exists at :: 0 <= at < |acts| && rbest >= 0 && Reduces(acts[at], rbest) && BeatenBefore(acts, at, nbest)
  {
    ghost var at := 0;
    nbest, rbest := 0, -1;
    for i := 0 to |acts|
      invariant nbest > 0 ==> rbest >= 0 && Count(acts, 0, rbest) == nbest
      invariant forall m :: 0 <= m < i && acts[m].kind == REDUCE ==> Count(acts, 0, acts[m].arg) <= nbest
      invariant nbest == 0 ==> rbest == -1
      invariant nbest > 0 ==> 0 <= at < i && Reduces(acts[at], rbest) && BeatenBefore(acts, at, nbest)
    {
      if acts[i].kind != REDUCE { continue; }
      var rp := acts[i].arg;
      if rp == rbest { continue; }
      var n := 1;
      for j := i + 1 to |acts|
        invariant n + Count(acts, j, rp) == Count(acts, i, rp)
      {
        if acts[j].kind != REDUCE { continue; }
        var rp2 := acts[j].arg;
        if rp2 == rbest { continue; }
        if rp2 == rp { n := n + 1; }
      }
      CountFrom(acts, i, rp);
      if n > nbest {
        nbest, rbest := n, rp;
        at := i;
      }
    }
    forall r: nat
      ensures Count(acts, 0, r) <= nbest
    {
      if m :| 0 <= m < |acts| && Reduces(acts[m], r) {
        assert acts[m].arg == r;
      } else {
        CountZero(acts, 0, r);
      }
    }
  }

  ghost predicate InSymbols(acts: seq<Action>, n: nat) {
    forall a :: a in acts ==> a.sp < n
  }

  /** The second loop: the first reduce by rbest moves to the default symbol, the others die. */
  method Combine(g: Grammar, acts: seq<Action>, rbest: nat) returns (out: seq<Action>)
    requires exists m :: 0 <= m < |acts| && Reduces(acts[m], rbest)
    ensures |out| == |acts|
    ensures forall a :: Live(a) ==> (a in out <==> Kept(g, acts, Some(rbest), a))
    ensures OneLive(acts) && InSymbols(acts, g.nsymbol) ==> OneLive(out) && InSymbols(out, g.nsymbol + 1)
  {
    out := acts;
    var k := 0;
    while !(acts[k].kind == REDUCE && acts[k].arg == rbest)
      invariant 0 <= k < |acts| && forall m :: 0 <= m < k ==> !Reduces(acts[m], rbest)
      invariant exists m :: k <= m < |acts| && Reduces(acts[m], rbest)
      decreases |acts| - k
    {
      k := k + 1;
    }
    out := out[k := out[k].(sp := g.nsymbol)];
    for n := k + 1 to |acts|
      invariant |out| == |acts| && out[k] == Action(g.nsymbol, REDUCE, rbest)
      invariant forall m :: 0 <= m < |acts| && m != k ==>
                  out[m] == if k < m < n && Reduces(acts[m], rbest) then acts[m].(kind := NOT_USED) else acts[m]
    {
      if out[n].kind == REDUCE && out[n].arg == rbest {
        out := out[n := out[n].(kind := NOT_USED)];
      }
    }
    forall a | Live(a)
      ensures a in out <==> Kept(g, acts, Some(rbest), a)
    {
      if a in acts && !Reduces(a, rbest) {
        var m :| 0 <= m < |acts| && acts[m] == a;
        assert out[m] == a;
      }
      if a in out {
        var m :| 0 <= m < |out| && out[m] == a;
        assert m != k ==> acts[m] in acts;
      }
    }
  }

  /** CompressTables for one state. */
  method CompressState(g: Grammar, acts: seq<Action>) returns (out: seq<Action>, best: Option<nat>)
    requires OneLive(acts) && |acts| < Msort.Capacity()
    requires InSymbols(acts, g.nsymbol)
    ensures IsDefault(acts, best) && InSymbols(out, g.nsymbol + 1)
    ensures best.Some? ==> exists at :: 0 <= at < |acts| && Reduces(acts[at], best.value) && BeatenBefore(acts, at, Count(acts, 0, best.value))
    ensures forall a :: Live(a) ==> (a in out <==> Kept(g, acts, best, a))
    ensures OneLive(out)
  {
    hide OneLive;
    out, best := acts, None;
    var nbest, rbest := MostFrequent(acts);
    if nbest < 2 { return; }
    best := Some(rbest);
    var combined := Combine(g, acts, rbest);
    ActionCmpIsTotal();
    out := Msort.Sort(ActionCmp, combined);
    forall a
      ensures a in combined <==> a in out
    {
      Msort.StableSortContains(ActionCmp, combined, out, a);
    }
    SortKeepsOneLive(combined, out);
  }

  lemma OneLiveMembers(list: seq<Action>, a: Action, b: Action)
    requires OneLive(list) && a in list && b in list && Live(a) && Live(b) && a.sp == b.sp
    ensures a == b
  {
    var m :| 0 <= m < |list| && list[m] == a;
    var n :| 0 <= n < |list| && list[n] == b;
  }

  lemma OneLiveAlike(list: seq<Action>, a: Action)
    requires OneLive(list) && Live(a) && Msort.TotalPreorder(ActionCmp)
    ensures |Msort.Alike(ActionCmp, list, a)| <= 1
  {
    hide Msort.TotalPreorder, Msort.Alike;
    Msort.AlikeLength(ActionCmp, list, a);
    assert forall m :: 0 <= m < |list| && ActionCmp(list[m], a) == 0 ==> list[m] == a;
  }

  /** A stable sort keeps the property that no symbol has two live actions: two of them in the
      output would be two in the input. */
  lemma SortKeepsOneLive(list: seq<Action>, out: seq<Action>)
    requires OneLive(list) && Msort.TotalPreorder(ActionCmp) && Msort.StableSortOf(ActionCmp, list, out)
    ensures OneLive(out)
  {
    hide OneLive;
    forall i, j | 0 <= i < j < |out| && out[i].sp == out[j].sp && Live(out[i])
      ensures !Live(out[j])
    {
      var a, b := out[i], out[j];
      if Live(b) {
        Msort.StableSortContains(ActionCmp, list, out, a);
        Msort.StableSortContains(ActionCmp, list, out, b);
        OneLiveMembers(list, a, b);
        OneLiveAlike(list, a);
        Msort.AlikeLength(ActionCmp, out, a);
      }
    }
    OneLiveIntro(out);
  }

  lemma OneLiveIntro(out: seq<Action>)
    requires forall i, j :: 0 <= i < j < |out| && out[i].sp == out[j].sp && Live(out[i]) ==> !Live(out[j])
    ensures OneLive(out)
  {
  }
}
