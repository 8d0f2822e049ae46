/** Parser actions (src/lemon.c): FindActions with resolve_conflict, and CompressTables. */
module Actions {
  import opened Options
  import opened Grammar
  import opened Configs
  import opened Lr0
  import Msort

  /** In the order of enum e_action. */
  datatype Kind = SHIFT | ACCEPT | REDUCE | ERROR | CONFLICT | SH_RESOLVED | RD_RESOLVED | NOT_USED

  /** What to do on symbol sp; arg is the state shifted to or the rule reduced by. */
  datatype Action = Action(sp: Symbol, kind: Kind, arg: nat)

  /** The actions compute_action gives a code; the others are dead. */
  predicate Live(a: Action) {
    a.kind in {SHIFT, ACCEPT, REDUCE, ERROR}
  }

  function Rank(k: Kind): nat {
    match k
    case SHIFT => 0
    case ACCEPT => 1
    case REDUCE => 2
    case ERROR => 3
    case CONFLICT => 4
    case SH_RESOLVED => 5
    case RD_RESOLVED => 6
    case NOT_USED => 7
  }

  /** actioncmp. */
  function ActionCmp(a: Action, b: Action): int {
    if a.sp != b.sp then a.sp - b.sp
    else if a.kind != b.kind then Rank(a.kind) - Rank(b.kind)
    else a.arg - b.arg
  }

  lemma ActionCmpIsTotal()
    ensures Msort.TotalPreorder(ActionCmp)
    ensures forall a, b :: ActionCmp(a, b) == 0 <==> a == b
  {
  }

  // ---- resolve_conflict ----

  /** FindRulePrecedences: the given precedence symbol, else the first one of the right-hand
      side that has a precedence. */
  function PrecSymbol(g: Grammar, r: nat): Option<Symbol>
    requires r < |g.rules|
  {
    if g.rules[r].precsym.Some? then g.rules[r].precsym else FirstWithPrecedence(g, g.rules[r].rhs)
  }

  function FirstWithPrecedence(g: Grammar, rhs: Form): Option<Symbol> {
    if rhs == [] then None
    else if rhs[0] in g.precedence then Some(rhs[0])
    else FirstWithPrecedence(g, rhs[1..])
  }

  function RulePrecedence(g: Grammar, r: nat): Option<Precedence> {
    if r < |g.rules| && PrecSymbol(g, r).Some? && PrecSymbol(g, r).value in g.precedence
    then Some(g.precedence[PrecSymbol(g, r).value]) else None
  }

  /** FindRulePrecedences for one rule: the given symbol, or the first of the right-hand side that has a
      precedence. */
  method FindRulePrecedence(g: Grammar, r: nat) returns (precsym: Option<Symbol>)
    requires r < |g.rules|
    ensures precsym == PrecSymbol(g, r)
  {
    precsym := g.rules[r].precsym;
    if precsym.None? {
      var rhs := g.rules[r].rhs;
      var i := 0;
      assert rhs[0..] == rhs;
      while i < |rhs|
        invariant 0 <= i <= |rhs| && FirstWithPrecedence(g, rhs) == FirstWithPrecedence(g, rhs[i..])
      {
        if rhs[i] in g.precedence { return Some(rhs[i]); }
        i := i + 1;
      }
    }
  }

  /** The precedence of a rule is that of its given symbol; without one it is that of the first symbol
      on the right that has one, and there is none exactly if no symbol there has one. */
  ghost predicate IsPrecedenceOf(g: Grammar, r: nat, p: Option<Precedence>) {
    && r < |g.rules|
    && var rhs := g.rules[r].rhs;
       match g.rules[r].precsym
       case Some(s) => p == if s in g.precedence then Some(g.precedence[s]) else None
       case None =>
         && (p.None? <==> forall i :: 0 <= i < |rhs| ==> rhs[i] !in g.precedence)
         && forall i :: 0 <= i < |rhs| && rhs[i] in g.precedence && (forall j :: 0 <= j < i ==> rhs[j] !in g.precedence) ==>
              p == Some(g.precedence[rhs[i]])
  }

  lemma RulePrecedenceIs(g: Grammar, r: nat, p: Option<Precedence>)
    requires IsPrecedenceOf(g, r, p) || r < |g.rules|
    ensures IsPrecedenceOf(g, r, p) <==> p == RulePrecedence(g, r)
  {
    var rhs := g.rules[r].rhs;
    FirstIs(g, rhs);
    if exists i :: 0 <= i < |rhs| && rhs[i] in g.precedence {
      var i := FirstPlace(g, rhs);
    }
  }

  lemma {:induction false} FirstPlace(g: Grammar, rhs: Form) returns (i: nat)
    requires exists i :: 0 <= i < |rhs| && rhs[i] in g.precedence
    ensures i < |rhs| && rhs[i] in g.precedence && forall j :: 0 <= j < i ==> rhs[j] !in g.precedence
  {
    i := 0;
    if rhs[0] !in g.precedence {
      var k :| 0 <= k < |rhs| && rhs[k] in g.precedence;
      assert rhs[1..][k - 1] == rhs[k];
      i := FirstPlace(g, rhs[1..]);
      assert forall j :: 0 < j < i + 1 ==> rhs[j] == rhs[1..][j - 1];
      i := i + 1;
    }
  }

  lemma {:induction false} FirstIs(g: Grammar, rhs: Form)
    ensures var f := FirstWithPrecedence(g, rhs);
      && (f.Some? ==> f.value in g.precedence)
      && (f.None? <==> forall i :: 0 <= i < |rhs| ==> rhs[i] !in g.precedence)
      && forall i :: 0 <= i < |rhs| && rhs[i] in g.precedence && (forall j :: 0 <= j < i ==> rhs[j] !in g.precedence) ==> f == Some(rhs[i])
  {
    if rhs != [] && rhs[0] !in g.precedence {
      FirstIs(g, rhs[1..]);
      var f := FirstWithPrecedence(g, rhs);
      forall i | 0 <= i < |rhs| && rhs[i] in g.precedence
        ensures f.Some? && ((forall j :: 0 <= j < i ==> rhs[j] !in g.precedence) ==> f == Some(rhs[i]))
      {
        assert rhs[1..][i - 1] == rhs[i];
        assert forall j :: 0 <= j < i - 1 ==> rhs[1..][j] == rhs[j + 1];
      }
    }
  }

  function SymbolPrecedence(g: Grammar, s: Symbol): Option<Precedence> {
    if s in g.precedence then Some(g.precedence[s]) else None
  }

  /** resolve_conflict on actions x before y of one symbol: their new kinds, and the count of
      unresolved conflicts. */
  function Resolve(g: Grammar, x: Action, y: Action): (Kind, Kind, nat) {
    if x.kind == SHIFT && y.kind == REDUCE then
      match (SymbolPrecedence(g, x.sp), RulePrecedence(g, y.arg)) {
        case (Some(px), Some(py)) =>
          if px.level > py.level then (SHIFT, RD_RESOLVED, 0)
          else if px.level < py.level then (SH_RESOLVED, REDUCE, 0)
          else if px.assoc == RightAssoc then (SHIFT, RD_RESOLVED, 0)
          else if px.assoc == LeftAssoc then (SH_RESOLVED, REDUCE, 0)
          else (SHIFT, CONFLICT, 1)
        case _ => (SHIFT, CONFLICT, 1)
      }
    else if x.kind == REDUCE && y.kind == REDUCE then
      match (RulePrecedence(g, x.arg), RulePrecedence(g, y.arg)) {
        case (Some(px), Some(py)) =>
          if px.level == py.level then (REDUCE, CONFLICT, 1)
          else if px.level > py.level then (REDUCE, RD_RESOLVED, 0)
          else (RD_RESOLVED, REDUCE, 0)
        case _ => (REDUCE, CONFLICT, 1)
      }
    else (x.kind, y.kind, 0)
  }

  /** Before any resolution: within one symbol, at most the first action is a shift and all
      later ones are reduces. */
  ghost predicate Fresh(acts: seq<Action>) {
    && (forall i :: 0 <= i < |acts| ==> acts[i].kind in {SHIFT, ACCEPT, REDUCE})
    && (forall i, j :: 0 <= i < j < |acts| && acts[i].sp == acts[j].sp ==>
          acts[i].kind in {SHIFT, REDUCE} && acts[j].kind == REDUCE)
  }

  ghost predicate Grouped(acts: seq<Action>) {
    forall i, j :: 0 <= i < j < |acts| ==> acts[i].sp <= acts[j].sp
  }

  /** Only kinds differ, and only from a live shift or reduce to a dead one. */
  ghost predicate OnlyKilled(before: seq<Action>, after: seq<Action>) {
    && |before| == |after|
    && forall i :: 0 <= i < |before| ==>
         after[i] == before[i] || (after[i] == before[i].(kind := after[i].kind) && !Live(after[i]) && before[i].kind in {SHIFT, REDUCE})
  }

  ghost predicate SomeLive(acts: seq<Action>, sp: Symbol) {
    exists i :: 0 <= i < |acts| && acts[i].sp == sp && Live(acts[i])
  }

  /** No symbol has two live actions. */
  ghost predicate OneLive(acts: seq<Action>) {
    forall i, j :: 0 <= i < j < |acts| && acts[i].sp == acts[j].sp ==> !(Live(acts[i]) && Live(acts[j]))
  }

  /** What precedence says of a reduce y against an earlier action x of the same symbol: y wins
      only if both sides have a precedence and y's is higher, or equal and the symbol groups to
      the left. */
  predicate Outranks(g: Grammar, y: Action, x: Action) {
    match (if x.kind == SHIFT then SymbolPrecedence(g, x.sp) else RulePrecedence(g, x.arg), RulePrecedence(g, y.arg)) {
      case (Some(px), Some(py)) => py.level > px.level || (py.level == px.level && x.kind == SHIFT && px.assoc == LeftAssoc)
      case _ => false
    }
  }

  /** Precedence says which of x and a reduce y stays. */
  predicate Settled(g: Grammar, x: Action, y: Action) {
    match (if x.kind == SHIFT then SymbolPrecedence(g, x.sp) else RulePrecedence(g, x.arg), RulePrecedence(g, y.arg)) {
      case (Some(px), Some(py)) => py.level != px.level || (x.kind == SHIFT && px.assoc != NonAssoc)
      case _ => false
    }
  }

  /** The position of the winner among the first n actions on sp, challenged in list order
      (-1 if there are none). */
  function Champion(g: Grammar, list: seq<Action>, sp: Symbol, n: nat): int
    requires n <= |list|
    ensures -1 <= Champion(g, list, sp, n) < n
    ensures Champion(g, list, sp, n) >= 0 ==> list[Champion(g, list, sp, n)].sp == sp
  {
    if n == 0 then -1 else
      var c := Champion(g, list, sp, n - 1);
      if list[n - 1].sp != sp then c
      else if c < 0 || Outranks(g, list[n - 1], list[c]) then n - 1
      else c
  }

  lemma ResolveKillsTheLoser(g: Grammar, x: Action, y: Action)
    requires x.kind in {SHIFT, REDUCE} && y.kind == REDUCE
    ensures var r := Resolve(g, x, y);
            && Live(x.(kind := r.0)) != Outranks(g, y, x) && Live(y.(kind := r.1)) == Outranks(g, y, x)
            && (Live(x.(kind := r.0)) ==> r.0 == x.kind) && (Live(y.(kind := r.1)) ==> r.1 == y.kind)
            && (!Live(x.(kind := r.0)) ==> r.0 == if x.kind == SHIFT then SH_RESOLVED else RD_RESOLVED)
            && (!Live(y.(kind := r.1)) ==> r.1 == if Settled(g, x, y) then RD_RESOLVED else CONFLICT)
  {
  }

  /** A later action on another symbol changes no champion; on sp, it may take over. */
  lemma {:induction false} ChampionSame(g: Grammar, list: seq<Action>, sp: Symbol, m: nat, n: nat)
    requires m <= n <= |list| && forall k :: m <= k < n ==> list[k].sp != sp
    ensures Champion(g, list, sp, m) == Champion(g, list, sp, n)
  {
    if m < n { ChampionSame(g, list, sp, m, n - 1); }
  }

  lemma {:induction false} ChampionExists(g: Grammar, list: seq<Action>, sp: Symbol, k: nat, n: nat)
    requires k < n <= |list| && list[k].sp == sp
    ensures Champion(g, list, sp, n) >= 0
  {
    if k < n - 1 { ChampionExists(g, list, sp, k, n - 1); }
  }

  /** What becomes of an action that is not the winner: it lost against the winner so far, in a conflict
      or not, or it was the winner so far itself. */
  function Fate(g: Grammar, list: seq<Action>, n: nat): Kind
    requires n < |list|
  {
    var c := Champion(g, list, list[n].sp, n);
    if c >= 0 && !Outranks(g, list[n], list[c]) then (if Settled(g, list[c], list[n]) then RD_RESOLVED else CONFLICT)
    else if list[n].kind == SHIFT then SH_RESOLVED else RD_RESOLVED
  }

  /** A winner was so from the start. */
  lemma {:induction false} WonAtOnce(g: Grammar, list: seq<Action>, i: nat, n: nat)
    requires i < n <= |list| && Champion(g, list, list[i].sp, n) == i
    ensures Champion(g, list, list[i].sp, i + 1) == i
    ensures var c := Champion(g, list, list[i].sp, i); c < 0 || Outranks(g, list[i], list[c])
  {
    hide Outranks;
    if i < n - 1 { WonAtOnce(g, list, i, n - 1); }
  }

  /** Every dead action is marked with its fate. */
  ghost predicate FatesMarked(g: Grammar, list: seq<Action>, acts: seq<Action>) {
    |acts| == |list| && forall n :: 0 <= n < |list| && !Live(acts[n]) ==> acts[n].kind == Fate(g, list, n)
  }

  /** Exactly the champions are live. */
  ghost predicate ChampionsLive(g: Grammar, list: seq<Action>, acts: seq<Action>) {
    |acts| == |list| && forall n :: 0 <= n < |list| ==> (Live(acts[n]) <==> n == Champion(g, list, list[n].sp, |list|))
  }

  /** Symbols before cur are decided, those after it untouched, and of cur the positions
      before `cut` are decided among themselves. */
  ghost predicate Decided(g: Grammar, list: seq<Action>, acts: seq<Action>, cur: int, cut: nat) {
    && |acts| == |list| && cut <= |list|
    && forall n :: 0 <= n < |list| ==>
         && (list[n].sp < cur ==> (Live(acts[n]) <==> n == Champion(g, list, list[n].sp, |list|)))
         && (list[n].sp > cur ==> acts[n] == list[n])
         && (list[n].sp == cur && n < cut ==> (Live(acts[n]) <==> n == Champion(g, list, list[n].sp, cut)))
         && (list[n].sp == cur && n >= cut ==> acts[n] == list[n])
  }

  /** The positions before i have met everything after them: a live one means the symbol is settled. */
  ghost predicate Scanned(list: seq<Action>, acts: seq<Action>, cur: int, cut: nat, i: nat) {
    |acts| == |list| &&
    forall n, m :: 0 <= n < i && n < |list| && cut <= m < |list| && list[n].sp == cur && Live(acts[n]) ==> list[m].sp != cur
  }

  function Resolved(g: Grammar, acts: seq<Action>, i: nat, j: nat): seq<Action>
    requires i < j < |acts|
  {
    var (ki, kj, _) := Resolve(g, acts[i], acts[j]);
    acts[i := acts[i].(kind := ki)][j := acts[j].(kind := kj)]
  }

  /** The symbol before position i is settled, and nothing later has it. */
  lemma SettledBefore(g: Grammar, list: seq<Action>, acts: seq<Action>, cur: int, cut: nat, i: nat)
    requires Grouped(list) && i < |list| && cut <= |list| && i <= cut
    requires cur == (if i == 0 then -1 else list[i - 1].sp) && cur != list[i].sp
    ensures forall n :: 0 <= n < |list| ==> (n < i ==> list[n].sp <= cur) && (n >= i ==> list[n].sp >= list[i].sp > cur)
    ensures forall n :: 0 <= n < |list| && list[n].sp == cur ==> Champion(g, list, cur, cut) == Champion(g, list, cur, |list|)
    ensures Champion(g, list, list[i].sp, i) == Champion(g, list, list[i].sp, 0)
  {
    hide Outranks, Champion, Fate;
    forall n | 0 <= n < |list| && list[n].sp == cur
      ensures Champion(g, list, cur, cut) == Champion(g, list, cur, |list|)
    {
      ChampionSame(g, list, cur, cut, |list|);
    }
    ChampionSame(g, list, list[i].sp, 0, i);
  }

  /** Moving on to position i: everything on its symbol up to and including i is decided. */
  lemma EnterPosition(g: Grammar, list: seq<Action>, acts: seq<Action>, cur: int, cut: nat, i: nat) returns (cut': nat)
    requires Fresh(list) && Grouped(list) && OnlyKilled(list, acts) && i < |list|
    requires Decided(g, list, acts, cur, cut) && Scanned(list, acts, cur, cut, i) && i <= cut
    requires cur == if i == 0 then -1 else list[i - 1].sp
    ensures i < cut' && Decided(g, list, acts, list[i].sp, cut') && Scanned(list, acts, list[i].sp, cut', i)
  {
    hide Outranks, Champion, Fate;
    if cur == list[i].sp {
      ChampionExists(g, list, cur, i - 1, cut);
      assert Live(acts[Champion(g, list, cur, cut)]);
      cut' := cut;
    } else {
      cut' := i + 1;
      SettledBefore(g, list, acts, cur, cut, i);
      FirstChampion(g, list, i);
    }
  }

  lemma FirstChampion(g: Grammar, list: seq<Action>, i: nat)
    requires i < |list| && Champion(g, list, list[i].sp, i) == Champion(g, list, list[i].sp, 0)
    ensures Champion(g, list, list[i].sp, i + 1) == i
  {
  }

  /** Position i meets position j of the same symbol. */
  lemma Meet(g: Grammar, list: seq<Action>, acts: seq<Action>, cut: nat, i: nat, j: nat) returns (cut': nat)
    requires Fresh(list) && OnlyKilled(list, acts) && i < j < |list| && list[i].sp == list[j].sp
    requires Decided(g, list, acts, list[i].sp, cut) && Scanned(list, acts, list[i].sp, cut, i)
    requires i < cut && (Live(acts[i]) ==> j <= cut)
    ensures var after := Resolved(g, acts, i, j);
            && OnlyKilled(list, after) && cut <= cut' && (Live(after[i]) ==> j + 1 <= cut')
            && Decided(g, list, after, list[i].sp, cut') && Scanned(list, after, list[i].sp, cut', i)
  {
    hide Outranks, Settled, RulePrecedence, SymbolPrecedence;
    cut' := cut;
    if Live(acts[i]) && Live(acts[j]) {
      assert acts[i] == list[i] && acts[j] == list[j];
      ResolveKillsTheLoser(g, list[i], list[j]);
      cut' := j + 1;
    } else {
      NothingResolved(g, acts, i, j);
    }
  }

  lemma MeetFates(g: Grammar, list: seq<Action>, acts: seq<Action>, cut: nat, i: nat, j: nat)
    requires Fresh(list) && OnlyKilled(list, acts) && i < j < |list| && list[i].sp == list[j].sp
    requires Decided(g, list, acts, list[i].sp, cut) && FatesMarked(g, list, acts)
    requires i < cut && (Live(acts[i]) ==> j <= cut)
    ensures FatesMarked(g, list, Resolved(g, acts, i, j))
  {
    hide Outranks, Settled, RulePrecedence, SymbolPrecedence, Resolve, Champion;
    if Live(acts[i]) && Live(acts[j]) {
      assert acts[i] == list[i] && acts[j] == list[j];
      assert Champion(g, list, list[i].sp, j) == i;
      ResolveKillsTheLoser(g, list[i], list[j]);
      WonAtOnce(g, list, i, j);
    } else {
      NothingResolved(g, acts, i, j);
    }
  }

  lemma NothingResolved(g: Grammar, acts: seq<Action>, i: nat, j: nat)
    requires i < j < |acts| && !(Live(acts[i]) && Live(acts[j]))
    ensures Resolved(g, acts, i, j) == acts
  {
    hide RulePrecedence, SymbolPrecedence;
  }

  function Conflicts(acts: seq<Action>): nat {
    if acts == [] then 0 else (if acts[0].kind == CONFLICT then 1 else 0) + Conflicts(acts[1..])
  }

  lemma {:induction false} ConflictsUpdate(acts: seq<Action>, i: nat, a: Action)
    requires i < |acts|
    ensures Conflicts(acts[i := a]) + (if acts[i].kind == CONFLICT then 1 else 0) == Conflicts(acts) + if a.kind == CONFLICT then 1 else 0
  {
    if i == 0 {
      assert acts[i := a][1..] == acts[1..];
    } else {
      assert acts[i := a][1..] == acts[1..][i - 1 := a];
      ConflictsUpdate(acts[1..], i - 1, a);
    }
  }

  /** A conflict is counted exactly when an action is marked as one. */
  lemma ResolvedCounts(g: Grammar, acts: seq<Action>, i: nat, j: nat)
    requires i < j < |acts|
    ensures Conflicts(Resolved(g, acts, i, j)) == Conflicts(acts) + Resolve(g, acts[i], acts[j]).2
  {
    hide Conflicts;
    var (ki, kj, _) := Resolve(g, acts[i], acts[j]);
    ConflictsUpdate(acts, i, acts[i].(kind := ki));
    ConflictsUpdate(acts[i := acts[i].(kind := ki)], j, acts[j].(kind := kj));
    OneConflict(g, acts[i], acts[j]);
  }

  lemma OneConflict(g: Grammar, x: Action, y: Action)
    ensures var r := Resolve(g, x, y);
            && (r.0 == CONFLICT <==> x.kind == CONFLICT)
            && r.2 == (if r.1 == CONFLICT && y.kind != CONFLICT then 1 else 0) && (y.kind == CONFLICT ==> r.1 == CONFLICT)
  {
  }

  lemma {:induction false} NoConflicts(list: seq<Action>)
    requires forall i :: 0 <= i < |list| ==> list[i].kind != CONFLICT
    ensures Conflicts(list) == 0
  {
    if list != [] { NoConflicts(list[1..]); }
  }

  /** The conflict loops of FindActions: of the actions on one symbol exactly the champion
      stays live, and the conflicts that precedence does not settle are counted. */
  method ResolveAll(g: Grammar, list: seq<Action>) returns (acts: seq<Action>, nconflict: nat)
    requires Fresh(list) && Grouped(list)
    ensures OnlyKilled(list, acts) && ChampionsLive(g, list, acts) && FatesMarked(g, list, acts) && nconflict == Conflicts(acts)
  {
    hide Fate, FatesMarked, Conflicts, Resolve, Decided, Scanned, Champion, Fresh, Grouped, ChampionsLive;
    FreshHasNone(list);
    acts, nconflict := list, 0;
    var i := 0;
    ghost var cur: int, cut := -1, 0;
    NothingDecided(g, list);
    while i < |acts|
      invariant 0 <= i <= |acts| && OnlyKilled(list, acts) && i <= cut
      invariant cur == if i == 0 then -1 else list[i - 1].sp
      invariant FatesMarked(g, list, acts)
      invariant Decided(g, list, acts, cur, cut) && Scanned(list, acts, cur, cut, i) && nconflict == Conflicts(acts)
    {
      cut := EnterPosition(g, list, acts, cur, cut, i);
      cur := list[i].sp;
      var j := i + 1;
      while j < |acts| && acts[j].sp == acts[i].sp
        invariant i < j <= |acts| && OnlyKilled(list, acts) && i < cut
        invariant Live(acts[i]) ==> j <= cut
        invariant FatesMarked(g, list, acts)
        invariant Decided(g, list, acts, cur, cut) && Scanned(list, acts, cur, cut, i) && nconflict == Conflicts(acts)
      {
        ResolvedCounts(g, acts, i, j);
        MeetFates(g, list, acts, cut, i, j);
        ghost var next := Meet(g, list, acts, cut, i, j);
        var r := Resolve(g, acts[i], acts[j]);
        acts := Resolved(g, acts, i, j);
        nconflict := nconflict + r.2;
        cut := next;
        j := j + 1;
      }
      PositionScanned(list, acts, cur, cut, i, j);
      i := i + 1;
    }
    AllDecided(g, list, acts, cur, cut);
  }

  lemma FreshHasNone(list: seq<Action>)
    requires Fresh(list)
    ensures Conflicts(list) == 0
  {
    NoConflicts(list);
  }

  lemma NothingDecided(g: Grammar, list: seq<Action>)
    requires Fresh(list)
    ensures FatesMarked(g, list, list)
    ensures Decided(g, list, list, -1, 0) && Scanned(list, list, -1, 0, 0)
  {
  }

  lemma PositionScanned(list: seq<Action>, acts: seq<Action>, cur: int, cut: nat, i: nat, j: nat)
    requires Grouped(list) && OnlyKilled(list, acts) && Scanned(list, acts, cur, cut, i)
    requires i < j <= |list| && cur == list[i].sp && (j < |list| ==> acts[j].sp != acts[i].sp)
    requires Live(acts[i]) ==> j <= cut
    ensures Scanned(list, acts, cur, cut, i + 1)
  {
    forall m | j <= m < |list|
      ensures list[m].sp != cur
    {
      assert list[i].sp <= list[j].sp <= list[m].sp;
    }
  }

  lemma AllDecided(g: Grammar, list: seq<Action>, acts: seq<Action>, cur: int, cut: nat)
    requires Grouped(list) && Decided(g, list, acts, cur, cut) && |list| <= cut
    requires cur == if list == [] then -1 else list[|list| - 1].sp
    ensures ChampionsLive(g, list, acts)
  {
    hide Champion;
  }

  /** So every symbol that had an action has exactly one live one. */
  lemma ChampionsAreOne(g: Grammar, list: seq<Action>, acts: seq<Action>)
    requires OnlyKilled(list, acts) && ChampionsLive(g, list, acts)
    ensures OneLive(acts)
    ensures forall a :: a in list ==> SomeLive(acts, a.sp)
  {
    hide Outranks;
    forall a | a in list
      ensures SomeLive(acts, a.sp)
    {
      var k :| 0 <= k < |list| && list[k] == a;
      ChampionExists(g, list, a.sp, k, |list|);
      var c := Champion(g, list, a.sp, |list|);
      assert Live(acts[c]) && acts[c].sp == a.sp;
    }
  }

  /** The actions at positions i and j are all there is on their symbol. */
  ghost predicate Pair(list: seq<Action>, i: nat, j: nat) {
    i < j < |list| && list[i].sp == list[j].sp && forall k :: 0 <= k < |list| && k != i && k != j ==> list[k].sp != list[i].sp
  }

  lemma {:induction false} PairChampion(g: Grammar, list: seq<Action>, i: nat, j: nat)
    requires Pair(list, i, j)
    ensures Champion(g, list, list[i].sp, i) == -1 && Champion(g, list, list[i].sp, j) == i
    ensures Champion(g, list, list[i].sp, |list|) == if Outranks(g, list[j], list[i]) then j else i
  {
    hide Outranks;
    ChampionSame(g, list, list[i].sp, 0, i);
    ChampionSame(g, list, list[i].sp, i + 1, j);
    ChampionSame(g, list, list[i].sp, j + 1, |list|);
  }

  /** A shift against a reduce: px is the precedence of the symbol, py that of the rule. */
  lemma ShiftOrReduce(g: Grammar, list: seq<Action>, acts: seq<Action>, i: nat, j: nat, px: Option<Precedence>, py: Option<Precedence>)
    requires OnlyKilled(list, acts) && ChampionsLive(g, list, acts) && FatesMarked(g, list, acts) && Pair(list, i, j)
    requires list[i].kind == SHIFT && list[j].kind == REDUCE && IsPrecedenceOf(g, list[j].arg, py)
    requires px == if list[i].sp in g.precedence then Some(g.precedence[list[i].sp]) else None
    ensures acts[i].kind ==
      if px.Some? && py.Some? && (px.value.level < py.value.level || (px.value.level == py.value.level && px.value.assoc == LeftAssoc))
      then SH_RESOLVED else SHIFT
    ensures acts[j].kind ==
      if px.None? || py.None? then CONFLICT
      else if px.value.level < py.value.level then REDUCE
      else if px.value.level > py.value.level then RD_RESOLVED
      else match px.value.assoc case LeftAssoc => REDUCE case RightAssoc => RD_RESOLVED case NonAssoc => CONFLICT
  {
    hide Champion, IsPrecedenceOf, RulePrecedence;
    RulePrecedenceIs(g, list[j].arg, py);
    PairChampion(g, list, i, j);
  }

  /** In the list of a state a shift comes before the reduces of its symbol, and these in the order of
      their rules. */
  lemma ListOrder(list: seq<Action>, i: nat, j: nat)
    requires i < j < |list| && ActionCmp(list[i], list[j]) < 0
    ensures list[i].sp <= list[j].sp
    ensures list[i].sp == list[j].sp && list[j].kind == SHIFT ==> list[i].kind == SHIFT && list[i].arg < list[j].arg
    ensures list[i].sp == list[j].sp && list[i].kind == list[j].kind == REDUCE ==> list[i].arg < list[j].arg
  {
  }

  /** Two reduces: px and py are the precedences of their rules, of which that of i is the earlier one. */
  lemma ReduceOrReduce(g: Grammar, list: seq<Action>, acts: seq<Action>, i: nat, j: nat, px: Option<Precedence>, py: Option<Precedence>)
    requires OnlyKilled(list, acts) && ChampionsLive(g, list, acts) && FatesMarked(g, list, acts) && Pair(list, i, j)
    requires list[i].kind == REDUCE && list[j].kind == REDUCE && IsPrecedenceOf(g, list[i].arg, px) && IsPrecedenceOf(g, list[j].arg, py)
    requires ActionCmp(list[i], list[j]) < 0
    ensures list[i].arg < list[j].arg
    ensures acts[i].kind == if px.Some? && py.Some? && px.value.level < py.value.level then RD_RESOLVED else REDUCE
    ensures acts[j].kind ==
      if px.None? || py.None? || px.value.level == py.value.level then CONFLICT
      else if px.value.level < py.value.level then REDUCE else RD_RESOLVED
  {
    hide Champion, IsPrecedenceOf, RulePrecedence;
    RulePrecedenceIs(g, list[i].arg, px);
    RulePrecedenceIs(g, list[j].arg, py);
    PairChampion(g, list, i, j);
  }

  // ---- FindActions for one state ----

  /** a belongs to state s: a shift of the automaton, a reduce of a finished configuration on
      one of its lookaheads, or the accept of the start state. */
  ghost predicate Belongs(g: Grammar, st: State, s: nat, fws: map<Place, set<Symbol>>, a: Action) {
    match a.kind
    case SHIFT => Shift(a.sp, a.arg) in st.shifts
    case REDUCE =>
      && a.arg < |g.rules|
      && var c := Config(a.arg, |g.rules[a.arg].rhs|);
         c in st.configs && g.IsTerminal(a.sp) && (s, c) in fws && a.sp in fws[(s, c)]
    case ACCEPT => s == 0 && a.sp == g.start && a.arg == 0
    case _ => false
  }

  /** The reduces of the first n configurations, and those of the next one below terminal j. */
  ghost predicate ReducesUpTo(g: Grammar, st: State, s: nat, fws: map<Place, set<Symbol>>, n: nat, j: nat, a: Action)
    requires n <= |st.configs|
  {
    && Belongs(g, st, s, fws, a) && a.kind == REDUCE
    && (Config(a.arg, |g.rules[a.arg].rhs|) in st.configs[..n]
        || (n < |st.configs| && Config(a.arg, |g.rules[a.arg].rhs|) == st.configs[n] && a.sp < j))
  }

  ghost predicate Collected(g: Grammar, st: State, s: nat, fws: map<Place, set<Symbol>>, n: nat, j: nat, list: seq<Action>)
    requires n <= |st.configs|
  {
    && NoDuplicates(list)
    && forall a: Action :: a in list <==> (a.kind == SHIFT && Belongs(g, st, s, fws, a)) || ReducesUpTo(g, st, s, fws, n, j, a)
  }

  method ShiftActions(g: Grammar, st: State, ghost s: nat, ghost fws: map<Place, set<Symbol>>) returns (list: seq<Action>)
    requires forall j, k :: 0 <= j < k < |st.shifts| ==> st.shifts[j].sp != st.shifts[k].sp
    ensures |list| == |st.shifts| && Collected(g, st, s, fws, 0, 0, list)
  {
    list := seq(|st.shifts|, k requires 0 <= k < |st.shifts| => Action(st.shifts[k].sp, SHIFT, st.shifts[k].target));
    forall a: Action | a.kind == SHIFT && Belongs(g, st, s, fws, a)
      ensures a in list
    {
      var k :| 0 <= k < |st.shifts| && st.shifts[k] == Shift(a.sp, a.arg);
      assert list[k] == a;
    }
  }

  /** The reduces of one finished configuration. */
  method ReduceActions(g: Grammar, st: State, s: nat, fws: map<Place, set<Symbol>>, n: nat, list0: seq<Action>) returns (list: seq<Action>)
    requires n < |st.configs| && Increasing(st.configs) && ConfigOk(g, st.configs[n]) && (s, st.configs[n]) in fws
    requires Collected(g, st, s, fws, n, 0, list0)
    ensures Collected(g, st, s, fws, n + 1, 0, list) && |list| <= |list0| + g.nterminal
  {
    list := list0;
    var c := st.configs[n];
    if c.dot == |g.rules[c.rule].rhs| {
      for j := 0 to g.nterminal
        invariant Collected(g, st, s, fws, n, j, list) && |list| <= |list0| + j
      {
        ghost var before := list;
        if j in fws[(s, c)] {
          list := [Action(j, REDUCE, c.rule)] + list;
        }
        CollectedTerminal(g, st, s, fws, n, j, before, list);
      }
    }
    CollectedConfig(g, st, s, fws, n, list);
  }

  lemma CollectedTerminal(g: Grammar, st: State, s: nat, fws: map<Place, set<Symbol>>, n: nat, j: nat, before: seq<Action>, list: seq<Action>)
    requires n < |st.configs| && Increasing(st.configs) && ConfigOk(g, st.configs[n]) && (s, st.configs[n]) in fws && j < g.nterminal
    requires st.configs[n].dot == |g.rules[st.configs[n].rule].rhs|
    requires Collected(g, st, s, fws, n, j, before)
    requires list == (if j in fws[(s, st.configs[n])] then [Action(j, REDUCE, st.configs[n].rule)] else []) + before
    ensures Collected(g, st, s, fws, n, j + 1, list)
  {
    var a := Action(j, REDUCE, st.configs[n].rule);
    assert forall m :: 0 <= m < n ==> ConfigCmp(st.configs[m], st.configs[n]) < 0;
    assert a !in before;
  }

  lemma CollectedConfig(g: Grammar, st: State, s: nat, fws: map<Place, set<Symbol>>, n: nat, list: seq<Action>)
    requires n < |st.configs| && ConfigOk(g, st.configs[n])
    requires Collected(g, st, s, fws, n, if st.configs[n].dot == |g.rules[st.configs[n].rule].rhs| then g.nterminal else 0, list)
    ensures Collected(g, st, s, fws, n + 1, 0, list)
  {
    assert st.configs[..n + 1] == st.configs[..n] + [st.configs[n]];
  }

  /** All actions of state s, each once, as the loops of FindActions add them. */
  method CollectActions(g: Grammar, st: State, s: nat, fws: map<Place, set<Symbol>>) returns (list: seq<Action>)
    requires Increasing(st.configs) && Elements(st.configs) <= AllConfigs(g)
    requires forall j, k :: 0 <= j < k < |st.shifts| ==> st.shifts[j].sp != st.shifts[k].sp
    requires forall c :: c in st.configs ==> (s, c) in fws
    ensures NoDuplicates(list) && forall a: Action :: a in list <==> Belongs(g, st, s, fws, a)
    ensures |list| <= |st.shifts| + |st.configs| * g.nterminal + 1
  {
    hide Collected;
    list := ShiftActions(g, st, s, fws);
    for n := 0 to |st.configs|
      invariant Collected(g, st, s, fws, n, 0, list)
      invariant |list| <= |st.shifts| + n * g.nterminal
    {
      assert st.configs[n] in Elements(st.configs);
      assert (n + 1) * g.nterminal == n * g.nterminal + g.nterminal;
      list := ReduceActions(g, st, s, fws, n, list);
    }
    CollectedAll(g, st, s, fws, list);
    if s == 0 {
      list := [Action(g.start, ACCEPT, 0)] + list;
    }
  }

  lemma CollectedAll(g: Grammar, st: State, s: nat, fws: map<Place, set<Symbol>>, list: seq<Action>)
    requires Collected(g, st, s, fws, |st.configs|, 0, list)
    ensures NoDuplicates(list) && forall a: Action :: a in list <==> Belongs(g, st, s, fws, a) && a.kind != ACCEPT
  {
    assert st.configs[..|st.configs|] == st.configs;
  }

  lemma {:induction false} DistinctBelow(s: seq<Shift>, n: nat)
    requires forall k :: 0 <= k < |s| ==> s[k].sp < n
    requires forall j, k :: 0 <= j < k < |s| ==> s[j].sp != s[k].sp
    ensures |s| <= n
  {
    var used := set k | 0 <= k < |s| :: s[k].sp;
    DistinctCount(s);
    forall x | x in used
      ensures x in Below(n)
    {
      InBelow(x, n);
    }
    CountBelow(n);
    SubsetSize(used, Below(n));
  }

  ghost function Below(n: nat): set<nat> {
    if n == 0 then {} else Below(n - 1) + {n - 1}
  }

  lemma {:induction false} InBelow(x: nat, n: nat)
    ensures x in Below(n) <==> x < n
  {
    if n > 0 { InBelow(x, n - 1); }
  }

  lemma {:induction false} DistinctCount(s: seq<Shift>)
    requires forall j, k :: 0 <= j < k < |s| ==> s[j].sp != s[k].sp
    ensures |set k | 0 <= k < |s| :: s[k].sp| == |s|
  {
    if s != [] {
      var t := s[..|s| - 1];
      DistinctCount(t);
      assert (set k | 0 <= k < |s| :: s[k].sp) == (set k | 0 <= k < |t| :: t[k].sp) + {s[|s| - 1].sp};
    }
  }

  lemma {:induction false} CountBelow(n: nat)
    ensures |Below(n)| == n
  {
    if n > 0 {
      CountBelow(n - 1);
      InBelow(n - 1, n - 1);
    }
  }

  lemma ShiftSymbolsInRange(g: Grammar, states: seq<State>, s: nat, k: nat)
    requires g.Valid() && s < |states| && StateOk(g, states[s]) && ShiftsOk(g, states, s) && k < |states[s].shifts|
    ensures states[s].shifts[k].sp < g.nsymbol
    ensures exists c :: c in states[s].configs && NextIs(g, c, states[s].shifts[k].sp)
  {
    var x := states[s].shifts[k].sp;
    var d :| d in GotoSet(g, Elements(states[s].configs), x);
    var c :| c in Elements(states[s].configs) && NextIs(g, c, x);
    assert g.RuleOk(g.rules[c.rule]);
  }

  lemma PairIsFresh(g: Grammar, states: seq<State>, s: nat, fws: map<Place, set<Symbol>>, a: Action, b: Action)
    requires g.Accepted() && s < |states| && StateOk(g, states[s]) && ShiftsOk(g, states, s)
    requires Belongs(g, states[s], s, fws, a) && Belongs(g, states[s], s, fws, b)
    requires a.sp == b.sp && ActionCmp(a, b) < 0
    ensures a.kind in {SHIFT, REDUCE} && b.kind == REDUCE
  {
    NoShiftOnStart(g, states, s);
    if a.kind == SHIFT && b.kind == SHIFT {
      SameShift(states[s].shifts, Shift(a.sp, a.arg), Shift(b.sp, b.arg));
    }
  }

  lemma SameShift(shifts: seq<Shift>, a: Shift, b: Shift)
    requires forall j, k :: 0 <= j < k < |shifts| ==> shifts[j].sp != shifts[k].sp
    requires a in shifts && b in shifts && a.sp == b.sp
    ensures a == b
  {
  }

  /** What makes the conflict loops work: shifts come first in their group, and the accept is
      alone in its. */
  lemma SortedIsFresh(g: Grammar, states: seq<State>, s: nat, fws: map<Place, set<Symbol>>, list: seq<Action>)
    requires g.Accepted() && s < |states| && StateOk(g, states[s]) && ShiftsOk(g, states, s)
    requires forall i, j :: 0 <= i < j < |list| ==> ActionCmp(list[i], list[j]) < 0
    requires forall a :: a in list ==> Belongs(g, states[s], s, fws, a)
    ensures Fresh(list) && Grouped(list)
  {
    var st := states[s];
    forall i, j | 0 <= i < j < |list| && list[i].sp == list[j].sp
      ensures list[i].kind in {SHIFT, REDUCE} && list[j].kind == REDUCE
    {
      assert list[i] in list && list[j] in list;
      PairIsFresh(g, states, s, fws, list[i], list[j]);
    }
    forall i | 0 <= i < |list|
      ensures list[i].kind in {SHIFT, ACCEPT, REDUCE}
    {
      assert list[i] in list;
      assert Belongs(g, st, s, fws, list[i]);
    }
    forall i, j | 0 <= i < j < |list|
      ensures list[i].sp <= list[j].sp
    {
      assert ActionCmp(list[i], list[j]) < 0;
    }
  }

  lemma NoShiftOnStart(g: Grammar, states: seq<State>, s: nat)
    requires g.Accepted() && s < |states| && StateOk(g, states[s]) && ShiftsOk(g, states, s)
    ensures forall sh :: sh in states[s].shifts ==> sh.sp != g.start
  {
    forall k | 0 <= k < |states[s].shifts|
      ensures states[s].shifts[k].sp != g.start
    {
      ShiftSymbolsInRange(g, states, s, k);
    }
  }

  /** The actions of state s, in the order in which conflicts are resolved. */
  ghost predicate IsActionList(g: Grammar, st: State, s: nat, fws: map<Place, set<Symbol>>, list: seq<Action>) {
    && (forall i, j :: 0 <= i < j < |list| ==> ActionCmp(list[i], list[j]) < 0)
    && (forall a :: a in list <==> Belongs(g, st, s, fws, a))
  }

  /** FindActions for state s: `list` holds exactly the actions that belong to the state, in
      order; `acts` is that list with only the champion of each symbol left alive. */
  method FindActions(g: Grammar, states: seq<State>, s: nat, fws: map<Place, set<Symbol>>)
    returns (acts: seq<Action>, nconflict: nat, ghost list: seq<Action>)
    requires g.Accepted() && Sortable(g) && s < |states| && StateOk(g, states[s]) && ShiftsOk(g, states, s)
    requires forall c :: c in states[s].configs ==> (s, c) in fws
    ensures IsActionList(g, states[s], s, fws, list) && |list| < Msort.Capacity()
    ensures OnlyKilled(list, acts) && ChampionsLive(g, list, acts) && FatesMarked(g, list, acts) && OneLive(acts) && nconflict == Conflicts(acts)
    ensures forall a :: a in acts && Live(a) ==> Belongs(g, states[s], s, fws, a)
    ensures forall a :: Belongs(g, states[s], s, fws, a) ==> SomeLive(acts, a.sp)
  {
    hide Champion, Fate, SomeLive, OneLive;
    var collected := CollectActions(g, states[s], s, fws);
    ListFits(g, states, s);
    ActionCmpIsTotal();
    var sorted := Msort.Sort(ActionCmp, collected);
    list := sorted;
    Msort.SortedDistinct(ActionCmp, collected, list);
    forall a
      ensures a in list <==> Belongs(g, states[s], s, fws, a)
    {
      Msort.StableSortContains(ActionCmp, collected, list, a);
    }
    SortedIsFresh(g, states, s, fws, list);
    acts, nconflict := ResolveAll(g, sorted);
    ChampionsAreOne(g, list, acts);
    LiveBelong(g, states[s], s, fws, list, acts);
  }

  lemma LiveBelong(g: Grammar, st: State, s: nat, fws: map<Place, set<Symbol>>, list: seq<Action>, acts: seq<Action>)
    requires forall a :: a in list ==> Belongs(g, st, s, fws, a)
    requires OnlyKilled(list, acts)
    ensures forall a :: a in acts && Live(a) ==> Belongs(g, st, s, fws, a)
  {
    hide Belongs;
    forall a | a in acts && Live(a)
      ensures Belongs(g, st, s, fws, a)
    {
      var i :| 0 <= i < |acts| && acts[i] == a;
      assert list[i] in list;
    }
  }

  lemma ListFits(g: Grammar, states: seq<State>, s: nat)
    requires g.Valid() && Sortable(g) && s < |states| && StateOk(g, states[s]) && ShiftsOk(g, states, s)
    ensures |states[s].shifts| + |states[s].configs| * g.nterminal + 1 < Msort.Capacity()
  {
    forall k | 0 <= k < |states[s].shifts|
      ensures states[s].shifts[k].sp < g.nsymbol
    {
      ShiftSymbolsInRange(g, states, s, k);
    }
    DistinctBelow(states[s].shifts, g.nsymbol);
    NoDuplicatesIfIncreasing(states[s].configs);
    SizeOfElements(states[s].configs);
    SubsetSize(Elements(states[s].configs), AllConfigs(g));
    MulMonotone(|states[s].configs|, |AllConfigs(g)|, g.nterminal);
  }

  lemma MulMonotone(a: nat, b: nat, k: nat)
    requires a <= b
    ensures a * k <= b * k
  {
  }
}
